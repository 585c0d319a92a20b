/** Importing and exporting contacts as vCards (RFC 6350). */
module VCard {
  import opened Options
  import opened Sequences
  import opened Text
  import opened VCardText
  import opened VCardLines

  const MAX_VCARDS := 5000

  /** An email address, phone number, URL or messaging handle with its type. */
  datatype Entry = Entry(value: string, kind: string)

  datatype Address = Address(
    kind: string, street: string, locality: string, region: string, postalCode: string, country: string)

  /** The text fields of a contact, with the names of its groups. */
  datatype Fields = Fields(
    uid: string, displayName: string,
    familyName: string, givenName: string, middleName: string, namePrefix: string, nameSuffix: string,
    nickname: string, company: string, department: string, title: string,
    emails: seq<Entry>, phones: seq<Entry>, urls: seq<Entry>, ims: seq<Entry>,
    addresses: seq<Address>, notes: string, groupNames: seq<string>)

  /** A date as formatted by the writer. */
  type DateText = s: string | '\r' !in s && '\n' !in s

  /** A stored contact; the two dates are given as the text the writer formats them to. */
  datatype Contact = Contact(id: string, rev: Option<DateText>, birthday: Option<DateText>, text: Fields)

  const BLANK := Fields("", "", "", "", "", "", "", "", "", "", "", [], [], [], [], [], "", [])

  const NO_ADDRESS := Address("", "", "", "", "", "")

  // ---------------------------------------------------------------- reading a card

  datatype Reading = Reading(fields: Fields, hasData: bool)

  function Part(parts: seq<string>, i: nat): string {
    if i < |parts| then Unescape(parts[i]) else ""
  }

  /** The first item that is not blank. */
  function FirstNickname(items: seq<string>, otherwise: string): string {
    if items == [] then otherwise
    else
      var n := TrimSpace(Unescape(items[0]));
      if n != "" then n else FirstNickname(items[1..], otherwise)
  }

  function Labels(items: seq<string>): seq<string> {
    if items == [] then []
    else
      var n := TrimSpace(Unescape(items[0]));
      (if n != "" then [n] else []) + Labels(items[1..])
  }

  function AddressOf(value: string, kind: string): Address {
    var parts := Split(value, ';');
    Address(kind, Part(parts, 2), Part(parts, 3), Part(parts, 4), Part(parts, 5), Part(parts, 6))
  }

  function NamesOf(f: Fields, parts: seq<string>): Fields {
    f.(familyName := Part(parts, 0), givenName := Part(parts, 1), middleName := Part(parts, 2),
       namePrefix := Part(parts, 3), nameSuffix := Part(parts, 4))
  }

  function Added(entries: seq<Entry>, value: string, kind: string): seq<Entry> {
    if TrimSpace(value) == "" then entries else entries + [Entry(Unescape(TrimSpace(value)), kind)]
  }

  /** One content line read into the contact. */
  function Taken(r: Reading, p: Property): Reading {
    var f, v, kind := r.fields, p.value, TypeOf(p.params);
    match p.name
    case "FN" => Reading(f.(displayName := Unescape(v)), true)
    case "N" => Reading(NamesOf(f, Split(v, ';')), true)
    case "NICKNAME" => r.(fields := f.(nickname := FirstNickname(Split(v, ','), f.nickname)))
    case "ORG" =>
      var parts := Split(v, ';');
      Reading(f.(company := Unescape(parts[0]),
                 department := if |parts| > 1 then Unescape(parts[1]) else f.department), true)
    case "TITLE" => r.(fields := f.(title := Unescape(v)))
    case "EMAIL" => Reading(f.(emails := Added(f.emails, v, kind)), r.hasData || TrimSpace(v) != "")
    case "TEL" => Reading(f.(phones := Added(f.phones, v, kind)), r.hasData || TrimSpace(v) != "")
    case "URL" => r.(fields := f.(urls := Added(f.urls, v, kind)))
    case "IMPP" => r.(fields := f.(ims := Added(f.ims, v, kind)))
    case "ADR" =>
      if AddressOf(v, kind) == NO_ADDRESS then r else r.(fields := f.(addresses := f.addresses + [AddressOf(v, kind)]))
    case "NOTE" => r.(fields := f.(notes := if f.notes == "" then Unescape(v) else f.notes + "\n" + Unescape(v)))
    case "UID" => r.(fields := f.(uid := Unescape(v)))
    case "CATEGORIES" => r.(fields := f.(groupNames := f.groupNames + Labels(Split(v, ','))))
    case _ => r
  }

  function TakenAll(r: Reading, lines: seq<string>): Reading
    decreases |lines|
  {
    if lines == [] then r else TakenAll(Taken(r, PropertyOf(lines[0])), lines[1..])
  }

  lemma TakenFirst(r: Reading, lines: seq<string>, i: nat)
    requires i < |lines|
    ensures TakenAll(r, lines[i..]) == TakenAll(Taken(r, PropertyOf(lines[i])), lines[i + 1..])
  {
    assert lines[i..][1..] == lines[i + 1..];
  }

  lemma NamelessIgnored(r: Reading, p: Property)
    requires p.name == ""
    ensures Taken(r, p) == r
  {
  }

  function JoinNames(parts: seq<string>, out: string): string
    decreases |parts|
  {
    if parts == [] then out
    else if parts[0] == "" then JoinNames(parts[1..], out)
    else JoinNames(parts[1..], (if out == "" then "" else out + " ") + parts[0])
  }

  /** An empty display name is made up from the given and the family name. */
  function Shown(f: Fields): Fields {
    if f.displayName == "" then f.(displayName := JoinNames([f.givenName, f.familyName], "")) else f
  }

  method JoinTheNames(parts: seq<string>) returns (out: string)
    ensures out == JoinNames(parts, "")
  {
    out := "";
    for i := 0 to |parts|
      invariant JoinNames(parts[i..], out) == JoinNames(parts, "")
    {
      assert parts[i..][1..] == parts[i + 1..];
      if parts[i] == "" {
        continue;
      }
      if out != "" {
        out := out + " ";
      }
      out := out + parts[i];
    }
  }

  method ReadNickname(value: string, before: string) returns (nickname: string)
    ensures nickname == FirstNickname(Split(value, ','), before)
  {
    nickname := before;
    var items := SplitUnescaped(value, ',');
    for i := 0 to |items|
      invariant nickname == before
      invariant FirstNickname(items[i..], before) == FirstNickname(items, before)
    {
      assert items[i..][1..] == items[i + 1..];
      var n := UnescapeValue(items[i]);
      n := TrimSpace(n);
      if n != "" {
        nickname := n;
        break;
      }
    }
  }

  /** The nickname is the first item with anything in it, or stays as it is when there is none. */
  lemma {:induction false} FirstNicknameIs(items: seq<string>, k: nat, otherwise: string)
    requires k <= |items| && forall i | 0 <= i < k :: TrimSpace(Unescape(items[i])) == ""
    ensures k == |items| ==> FirstNickname(items, otherwise) == otherwise
    ensures k < |items| && TrimSpace(Unescape(items[k])) != "" ==>
      FirstNickname(items, otherwise) == TrimSpace(Unescape(items[k]))
    decreases k
  {
    if k > 0 {
      FirstNicknameIs(items[1..], k - 1, otherwise);
    }
  }

  lemma LabelsFirst(names: seq<string>, items: seq<string>, i: nat)
    requires i < |items|
    ensures var n, rest := TrimSpace(Unescape(items[i])), Labels(items[i + 1..]);
      names + Labels(items[i..]) == if n != "" then (names + [n]) + rest else names + rest
  {
    assert items[i..][1..] == items[i + 1..];
  }

  method ReadCategories(value: string, names: seq<string>) returns (groupNames: seq<string>)
    ensures groupNames == names + Labels(Split(value, ','))
  {
    groupNames := names;
    var items := SplitUnescaped(value, ',');
    for i := 0 to |items|
      invariant groupNames + Labels(items[i..]) == names + Labels(items)
    {
      LabelsFirst(groupNames, items, i);
      var n := UnescapeValue(items[i]);
      n := TrimSpace(n);
      if n != "" {
        groupNames := groupNames + [n];
      }
    }
  }

  method ReadEntry(entries: seq<Entry>, p: Property) returns (more: seq<Entry>)
    ensures more == Added(entries, p.value, TypeOf(p.params))
    ensures var v := TrimSpace(p.value);
      more == entries + if v == "" then [] else [Entry(Unescape(v), TypeOf(p.params))]
  {
    more := entries;
    var v := TrimSpace(p.value);
    if v != "" {
      v := UnescapeValue(v);
      more := entries + [Entry(v, TypeOf(p.params))];
    }
  }

  /** A property without which a card is no contact: a name, a company, or a value to reach somebody at. */
  predicate GivesData(p: Property) {
    || p.name == "FN" || p.name == "N" || p.name == "ORG"
    || ((p.name == "EMAIL" || p.name == "TEL") && TrimSpace(p.value) != "")
  }

  method ReadProperty(c: Fields, hasData: bool, p: Property) returns (f: Fields, has: bool)
    ensures Reading(f, has) == Taken(Reading(c, hasData), p)
    ensures p.name == "FN" ==> f == c.(displayName := Unescape(p.value))
    ensures p.name == "N" ==> f.familyName == Unescape(Split(p.value, ';')[0])
    ensures p.name == "N" && |Split(p.value, ';')| == 1 ==>
      f.givenName == "" && f.middleName == "" && f.namePrefix == "" && f.nameSuffix == ""
    ensures p.name == "ORG" ==> f.company == Unescape(Split(p.value, ';')[0])
    ensures p.name == "TITLE" ==> f == c.(title := Unescape(p.value))
    ensures p.name == "UID" ==> f == c.(uid := Unescape(p.value))
    ensures p.name == "NOTE" ==>
      f == c.(notes := if c.notes == "" then Unescape(p.value) else c.notes + "\n" + Unescape(p.value))
    ensures p.name == "EMAIL" ==> c.emails <= f.emails && f == c.(emails := f.emails)
    ensures p.name == "TEL" ==> c.phones <= f.phones && f == c.(phones := f.phones)
    ensures p.name == "URL" ==> c.urls <= f.urls && f == c.(urls := f.urls)
    ensures p.name == "IMPP" ==> c.ims <= f.ims && f == c.(ims := f.ims)
    ensures p.name == "ADR" ==> c.addresses <= f.addresses && f == c.(addresses := f.addresses)
    ensures p.name == "CATEGORIES" ==> c.groupNames <= f.groupNames && f == c.(groupNames := f.groupNames)
    ensures has <==> hasData || GivesData(p)
  {
    f, has := c, hasData;
    match p.name
    case "FN" =>
      var v := UnescapeValue(p.value);
      f, has := f.(displayName := v), true;
    case "N" =>
      var parts := SplitUnescaped(p.value, ';');
      f, has := NamesOf(f, parts), true;
    case "NICKNAME" =>
      var v := ReadNickname(p.value, f.nickname);
      f := f.(nickname := v);
    case "ORG" =>
      var parts := SplitUnescaped(p.value, ';');
      if |parts| > 0 {
        var v := UnescapeValue(parts[0]);
        f := f.(company := v);
      }
      if |parts| > 1 {
        var v := UnescapeValue(parts[1]);
        f := f.(department := v);
      }
      has := true;
    case "TITLE" =>
      var v := UnescapeValue(p.value);
      f := f.(title := v);
    case "EMAIL" =>
      var es := ReadEntry(f.emails, p);
      f, has := f.(emails := es), has || TrimSpace(p.value) != "";
    case "TEL" =>
      var es := ReadEntry(f.phones, p);
      f, has := f.(phones := es), has || TrimSpace(p.value) != "";
    case "URL" =>
      var es := ReadEntry(f.urls, p);
      f := f.(urls := es);
    case "IMPP" =>
      var es := ReadEntry(f.ims, p);
      f := f.(ims := es);
    case "ADR" =>
      var a := AddressOf(p.value, TypeOf(p.params));
      if a != NO_ADDRESS {
        f := f.(addresses := f.addresses + [a]);
      }
    case "NOTE" =>
      var v := UnescapeValue(p.value);
      f := f.(notes := if f.notes == "" then v else f.notes + "\n" + v);
    case "UID" =>
      var v := UnescapeValue(p.value);
      f := f.(uid := v);
    case "CATEGORIES" =>
      var names := ReadCategories(p.value, f.groupNames);
      f := f.(groupNames := names);
    case _ =>
  }

  method ParseOneCard(lines: seq<string>) returns (c: Fields, hasData: bool)
    ensures c == Shown(TakenAll(Reading(BLANK, false), lines).fields)
    ensures hasData == TakenAll(Reading(BLANK, false), lines).hasData
  {
    c, hasData := BLANK, false;
    for i := 0 to |lines|
      invariant TakenAll(Reading(c, hasData), lines[i..]) == TakenAll(Reading(BLANK, false), lines)
    {
      TakenFirst(Reading(c, hasData), lines, i);
      var p := SplitProperty(lines[i]);
      if p.name == "" {
        NamelessIgnored(Reading(c, hasData), p);
        continue;
      }
      c, hasData := ReadProperty(c, hasData, p);
    }
    if c.displayName == "" {
      var name := JoinTheNames([c.givenName, c.familyName]);
      c := c.(displayName := name);
    }
  }

  /** The contact of a card, if there is any data on it. */
  function Parsed(card: seq<string>): Option<Fields> {
    var r := TakenAll(Reading(BLANK, false), card);
    if card == [] || !r.hasData then None else Some(Shown(r.fields))
  }

  function ParsedAll(cards: seq<seq<string>>): seq<Option<Fields>> {
    if cards == [] then [] else [Parsed(cards[0])] + ParsedAll(cards[1..])
  }

  /** The contacts found, in order, up to the cap; out is what has been collected. */
  function Collected<T>(parsed: seq<Option<T>>, out: seq<T>): seq<T>
    decreases |parsed|
  {
    if parsed == [] then out
    else if parsed[0].None? then Collected(parsed[1..], out)
    else if |out| + 1 >= MAX_VCARDS then out + [parsed[0].value]
    else Collected(parsed[1..], out + [parsed[0].value])
  }

  function Imported(text: string): seq<Fields> {
    Collected(ParsedAll(Cards(Unfolded(Physical(text), []), false, [])), [])
  }

  lemma ParsedFirst(cards: seq<seq<string>>, i: nat)
    requires i < |cards|
    ensures ParsedAll(cards[i..]) == [Parsed(cards[i])] + ParsedAll(cards[i + 1..])
  {
    assert cards[i..][1..] == cards[i + 1..];
  }

  /** A card is a contact exactly when one of its lines gives data. */
  lemma ContactIff(card: seq<string>)
    ensures Parsed(card).Some? <==> exists i | 0 <= i < |card| :: GivesData(PropertyOf(card[i]))
  {
    DataIff(Reading(BLANK, false), card);
  }

  lemma {:induction false} DataIff(r: Reading, lines: seq<string>)
    ensures TakenAll(r, lines).hasData <==>
      r.hasData || exists i | 0 <= i < |lines| :: GivesData(PropertyOf(lines[i]))
    decreases |lines|
  {
    if lines != [] {
      var p, rest := PropertyOf(lines[0]), lines[1..];
      DataTaken(r, p);
      DataIff(Taken(r, p), rest);
      assert forall i | 0 <= i < |rest| :: rest[i] == lines[i + 1];
      if i :| 0 <= i < |lines| && GivesData(PropertyOf(lines[i])) {
        assert i > 0 ==> lines[i] == rest[i - 1];
      }
    }
  }

  lemma DataTaken(r: Reading, p: Property)
    ensures Taken(r, p).hasData <==> r.hasData || GivesData(p)
  {
  }

  function Somes<T>(parsed: seq<Option<T>>): seq<T> {
    if parsed == [] then []
    else (if parsed[0].Some? then [parsed[0].value] else []) + Somes(parsed[1..])
  }

  /** What is collected are the contacts found, in order, all of them or the first 5000. */
  lemma {:induction false} CollectedIs<T>(parsed: seq<Option<T>>, out: seq<T>)
    requires |out| < 5000
    ensures var all := out + Somes(parsed);
      Collected(parsed, out) == if |all| <= 5000 then all else all[..5000]
    decreases |parsed|
  {
    if parsed == [] {
      ConcatNothing(out);
    } else {
      var rest := Somes(parsed[1..]);
      if parsed[0].None? {
        CollectedIs(parsed[1..], out);
        ConcatNothing(rest);
      } else {
        var out1 := out + [parsed[0].value];
        Assoc(out, [parsed[0].value], rest);
        if |out1| < 5000 {
          CollectedIs(parsed[1..], out1);
        } else {
          assert (out1 + rest)[..5000] == out1;
        }
      }
    }
  }

  method ParseVCards(text: string) returns (out: seq<Fields>)
    ensures out == Imported(text)
  {
    out := [];
    var raw := Unfold(text);
    var cards := SplitCards(raw);
    for i := 0 to |cards|
      invariant Collected(ParsedAll(cards[i..]), out) == Collected(ParsedAll(cards), [])
    {
      ParsedFirst(cards, i);
      assert ([Parsed(cards[i])] + ParsedAll(cards[i + 1..]))[1..] == ParsedAll(cards[i + 1..]);
      if |cards[i]| == 0 {
        continue;
      }
      var c, ok := ParseOneCard(cards[i]);
      if !ok {
        continue;
      }
      out := out + [c];
      if |out| >= MAX_VCARDS {
        break;
      }
    }
  }

  // ---------------------------------------------------------------- writing a card

  function Line(name: string, value: string): string {
    ContentLine(name, "", value)
  }

  function DateLines(name: string, date: Option<DateText>): seq<string> {
    if date.Some? then [Line(name, date.value)] else []
  }

  function Names(f: Fields): seq<string> {
    [f.familyName, f.givenName, f.middleName, f.namePrefix, f.nameSuffix]
  }

  function OrgLines(f: Fields): seq<string> {
    if f.company == "" && f.department == "" then [] else [Line("ORG", Joined([f.company, f.department], ';'))]
  }

  function TextLines(name: string, value: string): seq<string> {
    if value == "" then [] else [Line(name, Escape(value))]
  }

  function EntryLines(name: string, entries: seq<Entry>): seq<string> {
    if entries == [] then []
    else [ContentLine(name, entries[0].kind, Escape(entries[0].value))] + EntryLines(name, entries[1..])
  }

  function AddressParts(a: Address): seq<string> {
    ["", "", a.street, a.locality, a.region, a.postalCode, a.country]
  }

  function AddressLines(addresses: seq<Address>): seq<string> {
    if addresses == [] then []
    else [ContentLine("ADR", addresses[0].kind, Joined(AddressParts(addresses[0]), ';'))] + AddressLines(addresses[1..])
  }

  function TrimmedNames(names: seq<string>): seq<string> {
    if names == [] then []
    else (if TrimSpace(names[0]) != "" then [TrimSpace(names[0])] else []) + TrimmedNames(names[1..])
  }

  function CategoryLines(names: seq<string>): seq<string> {
    var parts := TrimmedNames(names);
    if parts == [] then [] else [Line("CATEGORIES", Joined(parts, ','))]
  }

  function NameLines(f: Fields): seq<string> {
    [Line("FN", Escape(f.displayName)), Line("N", Joined(Names(f), ';'))]
  }

  function Identity(c: Contact): string {
    if c.text.uid != "" then c.text.uid else c.id
  }

  const OPENING: seq<string> := ["BEGIN:VCARD"]
  const CLOSING: seq<string> := ["END:VCARD"]
  const VERSION_LINES: seq<string> := [Line("VERSION", "4.0")]

  function FrontLines(c: Contact): seq<string> {
    OPENING + VERSION_LINES + TextLines("UID", Identity(c)) + DateLines("REV", c.rev)
    + NameLines(c.text) + TextLines("NICKNAME", c.text.nickname) + OrgLines(c.text) + TextLines("TITLE", c.text.title)
  }

  function CardLines(c: Contact): seq<string> {
    FrontLines(c) + EntryLines("EMAIL", c.text.emails) + EntryLines("TEL", c.text.phones)
    + EntryLines("URL", c.text.urls) + EntryLines("IMPP", c.text.ims)
    + AddressLines(c.text.addresses) + DateLines("BDAY", c.birthday)
    + CategoryLines(c.text.groupNames) + TextLines("NOTE", c.text.notes) + CLOSING
  }

  /** The lines of a card that an import makes nothing of, and the one that names the contact. */
  lemma Written(c: Contact)
    ensures "BEGIN:VCARD" == CardLines(c)[0] && "VERSION:4.0" == CardLines(c)[1]
    ensures "END:VCARD" == CardLines(c)[|CardLines(c)| - 1]
    ensures c.rev.Some? ==> "REV:" + c.rev.value in CardLines(c)
    ensures c.birthday.Some? ==> "BDAY:" + c.birthday.value in CardLines(c)
    ensures var id := if c.text.uid == "" then c.id else c.text.uid;
      id != "" ==> CardLines(c)[2] == "UID:" + Escape(id)
  {
    WrittenFront(c);
    CardStarts(c);
    if c.birthday.Some? {
      BirthdayIn(c, "BDAY:" + c.birthday.value);
    }
  }

  lemma CardStarts(c: Contact)
    ensures FrontLines(c) <= CardLines(c) && CardLines(c)[|CardLines(c)| - 1] == "END:VCARD"
    ensures forall line | line in FrontLines(c) :: line in CardLines(c)
  {
  }

  lemma BirthdayIn(c: Contact, line: string)
    requires c.birthday.Some? && line == "BDAY:" + c.birthday.value
    ensures line in CardLines(c)
  {
    assert "BDAY" + ":" == "BDAY:";
    assert DateLines("BDAY", c.birthday) == [line];
    assert line in DateLines("BDAY", c.birthday);
  }

  lemma WrittenFront(c: Contact)
    ensures |FrontLines(c)| >= 2 && "BEGIN:VCARD" == FrontLines(c)[0] && "VERSION:4.0" == FrontLines(c)[1]
    ensures c.rev.Some? ==> "REV:" + c.rev.value in FrontLines(c)
    ensures var id := if c.text.uid == "" then c.id else c.text.uid;
      id != "" ==> |FrontLines(c)| >= 3 && FrontLines(c)[2] == "UID:" + Escape(id)
  {
    var uid, rev := TextLines("UID", Identity(c)), DateLines("REV", c.rev);
    var rest := NameLines(c.text) + TextLines("NICKNAME", c.text.nickname) + OrgLines(c.text)
      + TextLines("TITLE", c.text.title);
    assert FrontLines(c) == OPENING + VERSION_LINES + uid + rev + rest;
    var front := OPENING + VERSION_LINES + uid + rev + rest;
    assert front[1] == VERSION_LINES[0];
    if uid != [] {
      assert front[2] == uid[0];
    }
    if rev != [] {
      assert "REV" + ":" == "REV:";
      assert front[|OPENING + VERSION_LINES + uid|] == rev[0];
    }
  }

  lemma PrintedMore(lines: seq<string>, line: string)
    ensures Printed(lines + [line]) == Printed(lines) + line + CRLF
  {
    PrintedConcat(lines, [line]);
    assert Printed([line]) == line + CRLF + Printed([line][1..]);
    assert Printed(lines) + (line + CRLF) == Printed(lines) + line + CRLF;
  }

  lemma TrimmedFirst(parts: seq<string>, names: seq<string>, i: nat)
    requires i < |names|
    ensures var n, rest := TrimSpace(names[i]), TrimmedNames(names[i + 1..]);
      parts + TrimmedNames(names[i..]) == if n != "" then (parts + [n]) + rest else parts + rest
  {
    assert names[i..][1..] == names[i + 1..];
  }

  method TrimNames(names: seq<string>) returns (parts: seq<string>)
    ensures parts == TrimmedNames(names)
  {
    parts := [];
    for i := 0 to |names|
      invariant parts + TrimmedNames(names[i..]) == TrimmedNames(names)
    {
      TrimmedFirst(parts, names, i);
      var n := TrimSpace(names[i]);
      if n != "" {
        parts := parts + [n];
      }
    }
  }

  /** The text written so far and the lines it stands for. */
  class Builder {
    var text: string
    ghost var lines: seq<string>

    ghost predicate Valid()
      reads this
    {
      text == Printed(lines)
    }

    constructor ()
      ensures Valid() && lines == []
    {
      text, lines := "", [];
    }

    method WriteLine(line: string)
      requires Valid()
      modifies this
      ensures Valid() && lines == old(lines) + [line]
    {
      PrintedMore(lines, line);
      text, lines := text + line + CRLF, lines + [line];
    }

    method WriteText(name: string, value: string)
      requires Valid()
      modifies this
      ensures Valid() && lines == old(lines) + TextLines(name, value)
    {
      if value != "" {
        var v := EscapeValue(value);
        WriteLine(name + ":" + v);
      }
    }

    method WriteDate(name: string, date: Option<DateText>)
      requires Valid()
      modifies this
      ensures Valid() && lines == old(lines) + DateLines(name, date)
    {
      if date.Some? {
        WriteLine(name + ":" + date.value);
      }
    }

    method WriteEntries(name: string, entries: seq<Entry>)
      requires Valid()
      modifies this
      ensures Valid() && lines == old(lines) + EntryLines(name, entries)
    {
      for i := 0 to |entries|
        invariant Valid()
        invariant lines + EntryLines(name, entries[i..]) == old(lines) + EntryLines(name, entries)
      {
        assert entries[i..][1..] == entries[i + 1..];
        var prop := name;
        if entries[i].kind != "" {
          prop := prop + ";TYPE=" + entries[i].kind;
        }
        var v := EscapeValue(entries[i].value);
        WriteLine(prop + ":" + v);
      }
    }

    method WriteAddresses(addresses: seq<Address>)
      requires Valid()
      modifies this
      ensures Valid() && lines == old(lines) + AddressLines(addresses)
    {
      for i := 0 to |addresses|
        invariant Valid()
        invariant lines + AddressLines(addresses[i..]) == old(lines) + AddressLines(addresses)
      {
        assert addresses[i..][1..] == addresses[i + 1..];
        var prop := "ADR";
        if addresses[i].kind != "" {
          prop := prop + ";TYPE=" + addresses[i].kind;
        }
        var v := JoinEscaped(AddressParts(addresses[i]), ';');
        WriteLine(prop + ":" + v);
      }
    }

    method WriteCategories(names: seq<string>)
      requires Valid()
      modifies this
      ensures Valid() && lines == old(lines) + CategoryLines(names)
    {
      var parts := TrimNames(names);
      if |parts| > 0 {
        var v := JoinEscaped(parts, ',');
        WriteLine("CATEGORIES" + ":" + v);
      }
    }

    method WriteOrg(f: Fields)
      requires Valid()
      modifies this
      ensures Valid() && lines == old(lines) + OrgLines(f)
    {
      if f.company != "" || f.department != "" {
        var org := JoinEscaped([f.company, f.department], ';');
        WriteLine("ORG" + ":" + org);
      }
    }

    method WriteNames(f: Fields)
      requires Valid()
      modifies this
      ensures Valid() && lines == old(lines) + NameLines(f)
    {
      var fn := EscapeValue(f.displayName);
      WriteLine("FN" + ":" + fn);
      var n := JoinEscaped(Names(f), ';');
      WriteLine("N" + ":" + n);
    }

    method WriteFront(c: Contact)
      requires Valid() && lines == []
      modifies this
      ensures Valid() && lines == FrontLines(c)
    {
      WriteLine("BEGIN:VCARD");
      WriteLine("VERSION" + ":" + "4.0");
      assert lines == OPENING + VERSION_LINES;
      WriteText("UID", if c.text.uid != "" then c.text.uid else c.id);
      WriteDate("REV", c.rev);
      WriteNames(c.text);
      WriteText("NICKNAME", c.text.nickname);
      WriteOrg(c.text);
      WriteText("TITLE", c.text.title);
    }
  }

  method WriteVCard(c: Contact) returns (text: string)
    ensures text == Printed(CardLines(c))
  {
    var b := new Builder();
    b.WriteFront(c);
    b.WriteEntries("EMAIL", c.text.emails);
    b.WriteEntries("TEL", c.text.phones);
    b.WriteEntries("URL", c.text.urls);
    b.WriteEntries("IMPP", c.text.ims);
    b.WriteAddresses(c.text.addresses);
    b.WriteDate("BDAY", c.birthday);
    b.WriteCategories(c.text.groupNames);
    b.WriteText("NOTE", c.text.notes);
    b.WriteLine("END:VCARD");
    text := b.text;
  }

  function AllLines(cs: seq<Contact>): seq<string> {
    if cs == [] then [] else CardLines(cs[0]) + AllLines(cs[1..])
  }

  lemma PrintedFirst(text: string, cs: seq<Contact>, i: nat)
    requires i < |cs|
    ensures text + Printed(AllLines(cs[i..])) == text + Printed(CardLines(cs[i])) + Printed(AllLines(cs[i + 1..]))
  {
    var card, rest := CardLines(cs[i]), AllLines(cs[i + 1..]);
    assert AllLines(cs[i..]) == card + rest by {
      assert cs[i..][1..] == cs[i + 1..];
    }
    PrintedConcat(card, rest);
    Assoc(text, Printed(card), Printed(rest));
  }

  /** An export: the contacts' cards one after the other. */
  method Export(cs: seq<Contact>) returns (text: string)
    ensures text == Printed(AllLines(cs))
  {
    text := "";
    assert cs[0..] == cs && forall s: string :: "" + s == s;
    for i := 0 to |cs|
      invariant text + Printed(AllLines(cs[i..])) == Printed(AllLines(cs))
    {
      PrintedFirst(text, cs, i);
      var card := WriteVCard(cs[i]);
      text := text + card;
    }
  }
}
