/** Exporting contacts and importing the export: what comes back, and when it is what was there. */
module VCardTrip {

  import opened Options
  import opened Sequences
  import opened Text
  import opened VCardText
  import opened VCardLines
  import opened VCard

  // ---------------------------------------------------------------- what is kept

  function KeptEntry(e: Entry): (r: seq<Entry>)
    ensures |r| <= 1
  {
    Added([], ValueRead(e.kind, Escape(e.value)), KindRead(e.kind))
  }

  function KeptEntries(entries: seq<Entry>): (r: seq<Entry>)
    ensures |r| <= |entries|
  {
    if entries == [] then [] else KeptEntry(entries[0]) + KeptEntries(entries[1..])
  }

  function KeptAddress(a: Address): Address {
    AddressOf(ValueRead(a.kind, Joined(AddressParts(a), ';')), KindRead(a.kind))
  }

  function KeptIfAny(a: Address): (r: seq<Address>)
    ensures |r| <= 1
  {
    if KeptAddress(a) == NO_ADDRESS then [] else [KeptAddress(a)]
  }

  function KeptAddresses(addresses: seq<Address>): (r: seq<Address>)
    ensures |r| <= |addresses|
  {
    if addresses == [] then [] else KeptIfAny(addresses[0]) + KeptAddresses(addresses[1..])
  }

  function KeptName(name: string): (r: seq<string>)
    ensures |r| <= 1
  {
    var n := TrimSpace(Lossy(TrimSpace(name)));
    if TrimSpace(name) == "" || n == "" then [] else [n]
  }

  function KeptNames(names: seq<string>): (r: seq<string>)
    ensures |r| <= |names|
  {
    if names == [] then [] else KeptName(names[0]) + KeptNames(names[1..])
  }

  /** The fields that come back of a contact. */
  function Kept(c: Contact): Fields {
    Shown(KeptBefore(c))
  }

  /** As far as the lines say. */
  function KeptBefore(c: Contact): Fields {
    var f := c.text;
    Fields(
      WithoutCR(Identity(c)), WithoutCR(f.displayName),
      Lossy(f.familyName), Lossy(f.givenName), Lossy(f.middleName), Lossy(f.namePrefix), Lossy(f.nameSuffix),
      TrimSpace(Lossy(f.nickname)), Lossy(f.company), Lossy(f.department), WithoutCR(f.title),
      KeptEntries(f.emails), KeptEntries(f.phones), KeptEntries(f.urls), KeptEntries(f.ims),
      KeptAddresses(f.addresses), WithoutCR(f.notes), KeptNames(f.groupNames))
  }

  function KeptAll(cs: seq<Contact>): (r: seq<Fields>)
    ensures |r| == |cs|
  {
    if cs == [] then [] else [Kept(cs[0])] + KeptAll(cs[1..])
  }

  /** A type that keeps to its line; the writer prints it as it is. */
  predicate Unbroken(kind: string) {
    '\n' !in kind
  }

  predicate KindsUnbroken(entries: seq<Entry>) {
    forall i | 0 <= i < |entries| :: Unbroken(entries[i].kind)
  }

  predicate FieldsUnbroken(f: Fields) {
    && KindsUnbroken(f.emails) && KindsUnbroken(f.phones) && KindsUnbroken(f.urls) && KindsUnbroken(f.ims)
    && forall i | 0 <= i < |f.addresses| :: Unbroken(f.addresses[i].kind)
  }

  predicate Printable(c: Contact) {
    FieldsUnbroken(c.text)
  }

  // ---------------------------------------------------------------- reading the lines of a section

  lemma {:induction false} TakenConcat(r: Reading, a: seq<string>, b: seq<string>)
    ensures TakenAll(r, a + b) == TakenAll(TakenAll(r, a), b)
    decreases |a|
  {
    if a == [] {
      assert a + b == b;
    } else {
      assert (a + b)[1..] == a[1..] + b;
      TakenConcat(Taken(r, PropertyOf(a[0])), a[1..], b);
    }
  }

  predicate KnownName(name: string) {
    || name == "VERSION" || name == "UID" || name == "REV" || name == "FN" || name == "N" || name == "NICKNAME"
    || name == "ORG" || name == "TITLE" || name == "ADR" || name == "BDAY" || name == "CATEGORIES" || name == "NOTE"
    || EntryName(name)
  }

  predicate EntryName(name: string) {
    name == "EMAIL" || name == "TEL" || name == "URL" || name == "IMPP"
  }

  lemma KnownNames(name: string)
    requires KnownName(name)
    ensures PropertyName(name)
  {
  }

  /** A printed content line is read as the property it was printed from. */
  lemma LineTaken(r: Reading, name: string, kind: string, value: string) returns (p: Property)
    requires KnownName(name)
    ensures TakenAll(r, [ContentLine(name, kind, value)]) == Taken(r, p)
    ensures p.name == name && p.value == ValueRead(kind, value) && TypeOf(p.params) == KindRead(kind)
  {
    KnownNames(name);
    var line := ContentLine(name, kind, value);
    p := PropertyOf(line);
    ContentLineRead(name, kind, value);
    assert [line][1..] == [];
  }

  lemma Ignored(r: Reading, p: Property)
    requires p.name == "VERSION" || p.name == "REV" || p.name == "BDAY"
    ensures Taken(r, p) == r
  {
  }

  lemma IgnoredTaken(r: Reading, name: string, value: string)
    requires name == "VERSION" || name == "REV" || name == "BDAY"
    ensures TakenAll(r, [Line(name, value)]) == r
  {
    var p := LineTaken(r, name, "", value);
    Ignored(r, p);
  }

  lemma DateTaken(r: Reading, name: string, date: Option<DateText>)
    requires name == "REV" || name == "BDAY"
    ensures TakenAll(r, DateLines(name, date)) == r
  {
    if date.Some? {
      IgnoredTaken(r, name, date.value);
    }
  }

  /** The plain texts: FN is apart, as it also counts as data. */
  lemma TextRead(r: Reading, p: Property)
    ensures p.name == "UID" ==> Taken(r, p) == r.(fields := r.fields.(uid := Unescape(p.value)))
    ensures p.name == "TITLE" ==> Taken(r, p) == r.(fields := r.fields.(title := Unescape(p.value)))
    ensures p.name == "NOTE" && r.fields.notes == "" ==>
      Taken(r, p) == r.(fields := r.fields.(notes := Unescape(p.value)))
  {
  }

  lemma UidTaken(r: Reading, value: string)
    requires r.fields.uid == ""
    ensures TakenAll(r, TextLines("UID", value)) == r.(fields := r.fields.(uid := WithoutCR(value)))
  {
    if value != "" {
      var p := LineTaken(r, "UID", "", Escape(value));
      UnescapeEscape(value);
      TextRead(r, p);
    }
  }

  lemma TitleTaken(r: Reading, value: string)
    requires r.fields.title == ""
    ensures TakenAll(r, TextLines("TITLE", value)) == r.(fields := r.fields.(title := WithoutCR(value)))
  {
    if value != "" {
      var p := LineTaken(r, "TITLE", "", Escape(value));
      UnescapeEscape(value);
      TextRead(r, p);
    }
  }

  lemma NoteTaken(r: Reading, value: string)
    requires r.fields.notes == ""
    ensures TakenAll(r, TextLines("NOTE", value)) == r.(fields := r.fields.(notes := WithoutCR(value)))
  {
    if value != "" {
      var p := LineTaken(r, "NOTE", "", Escape(value));
      UnescapeEscape(value);
      TextRead(r, p);
    }
  }

  lemma SplitSingle(value: string)
    ensures Split(Escape(value), ',') == [Bare(value)]
  {
    SplitJoined([value], ',');
  }

  lemma NicknameRead(r: Reading, p: Property, value: string)
    requires p.name == "NICKNAME" && p.value == Escape(value) && r.fields.nickname == ""
    ensures Taken(r, p) == r.(fields := r.fields.(nickname := TrimSpace(Lossy(value))))
  {
    SplitSingle(value);
    var n := TrimSpace(Lossy(value));
    assert [Bare(value)][1..] == [];
    assert FirstNickname([Bare(value)], "") == n;
  }

  lemma NicknameTaken(r: Reading, value: string)
    requires r.fields.nickname == ""
    ensures TakenAll(r, TextLines("NICKNAME", value)) == r.(fields := r.fields.(nickname := TrimSpace(Lossy(value))))
  {
    if value != "" {
      var p := LineTaken(r, "NICKNAME", "", Escape(value));
      NicknameRead(r, p, value);
    }
  }

  lemma OrgRead(r: Reading, p: Property, company: string, department: string)
    requires p.name == "ORG" && p.value == Joined([company, department], ';') && r.hasData
    ensures Taken(r, p) == r.(fields := r.fields.(company := Lossy(company), department := Lossy(department)))
  {
    SplitJoined([company, department], ';');
  }

  lemma OrgTaken(r: Reading, f: Fields)
    requires r.fields.company == "" && r.fields.department == "" && r.hasData
    ensures TakenAll(r, OrgLines(f)) ==
      r.(fields := r.fields.(company := Lossy(f.company), department := Lossy(f.department)))
  {
    if f.company != "" || f.department != "" {
      var p := LineTaken(r, "ORG", "", Joined([f.company, f.department], ';'));
      OrgRead(r, p, f.company, f.department);
    }
  }

  function NamesKept(f: Fields, names: Fields): Fields {
    f.(displayName := WithoutCR(names.displayName), familyName := Lossy(names.familyName),
       givenName := Lossy(names.givenName), middleName := Lossy(names.middleName),
       namePrefix := Lossy(names.namePrefix), nameSuffix := Lossy(names.nameSuffix))
  }

  lemma DisplayNameTaken(r: Reading, value: string)
    ensures TakenAll(r, [Line("FN", Escape(value))]) == Reading(r.fields.(displayName := WithoutCR(value)), true)
  {
    var p := LineTaken(r, "FN", "", Escape(value));
    UnescapeEscape(value);
  }

  lemma NameTaken(r: Reading, f: Fields)
    ensures TakenAll(r, [Line("N", Joined(Names(f), ';'))]) == Reading(NamesOf(r.fields, BareAll(Names(f))), true)
  {
    var value := Joined(Names(f), ';');
    var p := LineTaken(r, "N", "", value);
    SplitJoined(Names(f), ';');
  }

  lemma NamesTaken(r: Reading, f: Fields)
    ensures TakenAll(r, NameLines(f)) == Reading(NamesKept(r.fields, f), true)
  {
    var fn, n := Line("FN", Escape(f.displayName)), Line("N", Joined(Names(f), ';'));
    assert NameLines(f) == [fn] + [n];
    TakenConcat(r, [fn], [n]);
    DisplayNameTaken(r, f.displayName);
    NameTaken(TakenAll(r, [fn]), f);
  }

  // ---------------------------------------------------------------- entries, addresses, groups

  function EntriesOf(f: Fields, name: string): seq<Entry> {
    if name == "EMAIL" then f.emails else if name == "TEL" then f.phones else if name == "URL" then f.urls else f.ims
  }

  function WithEntries(f: Fields, name: string, entries: seq<Entry>): Fields {
    if name == "EMAIL" then f.(emails := entries)
    else if name == "TEL" then f.(phones := entries)
    else if name == "URL" then f.(urls := entries)
    else f.(ims := entries)
  }

  lemma EntryPropertyTaken(r: Reading, p: Property)
    requires EntryName(p.name) && r.hasData
    ensures Taken(r, p) ==
      Reading(WithEntries(r.fields, p.name, Added(EntriesOf(r.fields, p.name), p.value, TypeOf(p.params))), true)
  {
  }

  lemma EntryTaken(r: Reading, name: string, entry: Entry)
    requires EntryName(name) && r.hasData
    ensures TakenAll(r, [ContentLine(name, entry.kind, Escape(entry.value))]) ==
      Reading(WithEntries(r.fields, name, EntriesOf(r.fields, name) + KeptEntry(entry)), true)
  {
    var p := LineTaken(r, name, entry.kind, Escape(entry.value));
    EntryPropertyTaken(r, p);
    AddedKept(EntriesOf(r.fields, name), entry);
  }

  lemma AddedKept(entries: seq<Entry>, entry: Entry)
    ensures Added(entries, ValueRead(entry.kind, Escape(entry.value)), KindRead(entry.kind))
         == entries + KeptEntry(entry)
  {
  }

  lemma {:induction false} EntriesTaken(r: Reading, name: string, entries: seq<Entry>)
    requires EntryName(name) && r.hasData
    ensures TakenAll(r, EntryLines(name, entries)) ==
      Reading(WithEntries(r.fields, name, EntriesOf(r.fields, name) + KeptEntries(entries)), true)
    decreases |entries|
  {
    var had := EntriesOf(r.fields, name);
    if entries == [] {
      assert had + [] == had;
    } else {
      FirstEntryTaken(r, name, entries);
      EntriesTaken(Reading(WithEntries(r.fields, name, had + KeptEntry(entries[0])), true), name, entries[1..]);
      EntriesPut(r.fields, name, had + KeptEntry(entries[0]), had + KeptEntries(entries));
      Assoc(had, KeptEntry(entries[0]), KeptEntries(entries[1..]));
    }
  }

  lemma FirstEntryTaken(r: Reading, name: string, entries: seq<Entry>)
    requires EntryName(name) && r.hasData && entries != []
    ensures TakenAll(r, EntryLines(name, entries)) ==
      TakenAll(Reading(WithEntries(r.fields, name, EntriesOf(r.fields, name) + KeptEntry(entries[0])), true),
               EntryLines(name, entries[1..]))
  {
    TakenConcat(r, [ContentLine(name, entries[0].kind, Escape(entries[0].value))], EntryLines(name, entries[1..]));
    EntryTaken(r, name, entries[0]);
  }

  lemma EntriesPut(f: Fields, name: string, entries: seq<Entry>, more: seq<Entry>)
    requires EntryName(name)
    ensures EntriesOf(WithEntries(f, name, entries), name) == entries
    ensures WithEntries(WithEntries(f, name, entries), name, more) == WithEntries(f, name, more)
  {
  }

  lemma AddressRead(r: Reading, p: Property, a: Address)
    requires p.name == "ADR" && AddressOf(p.value, TypeOf(p.params)) == KeptAddress(a)
    ensures Taken(r, p) == r.(fields := r.fields.(addresses := r.fields.addresses + KeptIfAny(a)))
  {
    assert r.fields.addresses + [] == r.fields.addresses;
  }

  lemma AddressTaken(r: Reading, a: Address)
    ensures TakenAll(r, [ContentLine("ADR", a.kind, Joined(AddressParts(a), ';'))]) ==
      r.(fields := r.fields.(addresses := r.fields.addresses + KeptIfAny(a)))
  {
    var p := LineTaken(r, "ADR", a.kind, Joined(AddressParts(a), ';'));
    AddressRead(r, p, a);
  }

  lemma {:induction false} AddressesTaken(r: Reading, addresses: seq<Address>)
    ensures TakenAll(r, AddressLines(addresses)) ==
      r.(fields := r.fields.(addresses := r.fields.addresses + KeptAddresses(addresses)))
    decreases |addresses|
  {
    var had := r.fields.addresses;
    if addresses == [] {
      assert had + [] == had;
    } else {
      FirstAddressTaken(r, addresses);
      AddressesTaken(r.(fields := r.fields.(addresses := had + KeptIfAny(addresses[0]))), addresses[1..]);
      Assoc(had, KeptIfAny(addresses[0]), KeptAddresses(addresses[1..]));
    }
  }

  lemma FirstAddressTaken(r: Reading, addresses: seq<Address>)
    requires addresses != []
    ensures TakenAll(r, AddressLines(addresses)) ==
      TakenAll(r.(fields := r.fields.(addresses := r.fields.addresses + KeptIfAny(addresses[0]))),
               AddressLines(addresses[1..]))
  {
    var a := addresses[0];
    TakenConcat(r, [ContentLine("ADR", a.kind, Joined(AddressParts(a), ';'))], AddressLines(addresses[1..]));
    AddressTaken(r, a);
  }

  lemma {:induction false} LabelsKept(names: seq<string>)
    ensures Labels(BareAll(TrimmedNames(names))) == KeptNames(names)
  {
    if names != [] {
      LabelsKept(names[1..]);
      var n, rest := TrimSpace(names[0]), TrimmedNames(names[1..]);
      if n == "" {
        assert TrimmedNames(names) == rest;
        assert KeptNames(names) == KeptNames(names[1..]);
      } else {
        assert TrimmedNames(names) == [n] + rest;
        LabelFirst(n, rest);
      }
    }
  }

  lemma LabelFirst(n: string, rest: seq<string>)
    ensures Labels(BareAll([n] + rest)) ==
      (if TrimSpace(Lossy(n)) != "" then [TrimSpace(Lossy(n))] else []) + Labels(BareAll(rest))
  {
    assert ([n] + rest)[1..] == rest;
    assert BareAll([n] + rest) == [Bare(n)] + BareAll(rest);
  }

  lemma CategoriesRead(r: Reading, p: Property, names: seq<string>)
    requires p.name == "CATEGORIES" && names != [] && p.value == Joined(names, ',') && r.fields.groupNames == []
    ensures Taken(r, p) == r.(fields := r.fields.(groupNames := Labels(BareAll(names))))
  {
    SplitJoined(names, ',');
    assert r.fields.groupNames + Labels(BareAll(names)) == Labels(BareAll(names));
  }

  lemma CategoriesTaken(r: Reading, names: seq<string>)
    requires r.fields.groupNames == []
    ensures TakenAll(r, CategoryLines(names)) == r.(fields := r.fields.(groupNames := KeptNames(names)))
  {
    LabelsKept(names);
    var parts := TrimmedNames(names);
    if parts != [] {
      var p := LineTaken(r, "CATEGORIES", "", Joined(parts, ','));
      CategoriesRead(r, p, parts);
    }
  }

  // ---------------------------------------------------------------- a whole card

  /** What stands between the opening and the closing line. */
  function Front(c: Contact): seq<string> {
    VERSION_LINES + TextLines("UID", Identity(c)) + DateLines("REV", c.rev)
    + NameLines(c.text) + TextLines("NICKNAME", c.text.nickname) + OrgLines(c.text) + TextLines("TITLE", c.text.title)
  }

  function Back(c: Contact): seq<string> {
    EntryLines("EMAIL", c.text.emails) + EntryLines("TEL", c.text.phones)
    + EntryLines("URL", c.text.urls) + EntryLines("IMPP", c.text.ims)
    + AddressLines(c.text.addresses) + DateLines("BDAY", c.birthday)
    + CategoryLines(c.text.groupNames) + TextLines("NOTE", c.text.notes)
  }

  function Body(c: Contact): seq<string> {
    Front(c) + Back(c)
  }

  lemma Assoc4<T>(o: seq<T>, a: seq<T>, b: seq<T>, c: seq<T>, d: seq<T>)
    ensures o + a + b + c + d == o + (a + b + c + d)
  {
  }

  lemma FrontWrapped(c: Contact)
    ensures FrontLines(c) == OPENING + Front(c)
  {
    var f := c.text;
    var a, b, d, e := VERSION_LINES, TextLines("UID", Identity(c)), DateLines("REV", c.rev), NameLines(f);
    Assoc4(OPENING, a, b, d, e);
    Assoc4(OPENING, a + b + d + e, TextLines("NICKNAME", f.nickname), OrgLines(f), TextLines("TITLE", f.title));
  }

  lemma CardWhole(c: Contact)
    ensures CardLines(c) == Wrapped(Body(c))
  {
    var f, o := c.text, FrontLines(c);
    var a, b := EntryLines("EMAIL", f.emails), EntryLines("TEL", f.phones);
    var d, e := EntryLines("URL", f.urls), EntryLines("IMPP", f.ims);
    Assoc4(o, a, b, d, e);
    Assoc4(o, a + b + d + e, AddressLines(f.addresses), DateLines("BDAY", c.birthday), CategoryLines(f.groupNames));
    Assoc(o, a + b + d + e + AddressLines(f.addresses) + DateLines("BDAY", c.birthday) + CategoryLines(f.groupNames),
          TextLines("NOTE", f.notes));
    FrontWrapped(c);
    Assoc(OPENING, Front(c), Back(c));
  }

  function FrontKept(c: Contact): Fields {
    NamesKept(BLANK, c.text).(
    uid := WithoutCR(Identity(c)), nickname := TrimSpace(Lossy(c.text.nickname)),
    company := Lossy(c.text.company), department := Lossy(c.text.department), title := WithoutCR(c.text.title))
  }

  lemma FrontTaken(c: Contact)
    ensures TakenAll(Reading(BLANK, false), Front(c)) == Reading(FrontKept(c), true)
  {
    var f := c.text;
    var l1 := VERSION_LINES + TextLines("UID", Identity(c));
    var l2 := l1 + DateLines("REV", c.rev);
    var l3 := l2 + NameLines(f);
    var l4 := l3 + TextLines("NICKNAME", f.nickname);
    var l5 := l4 + OrgLines(f);
    var r0 := Reading(BLANK, false);
    TakenConcat(r0, VERSION_LINES, TextLines("UID", Identity(c)));
    TakenConcat(r0, l1, DateLines("REV", c.rev));
    TakenConcat(r0, l2, NameLines(f));
    TakenConcat(r0, l3, TextLines("NICKNAME", f.nickname));
    TakenConcat(r0, l4, OrgLines(f));
    TakenConcat(r0, l5, TextLines("TITLE", f.title));
    IgnoredTaken(r0, "VERSION", "4.0");
    UidTaken(r0, Identity(c));
    var r1 := r0.(fields := BLANK.(uid := WithoutCR(Identity(c))));
    DateTaken(r1, "REV", c.rev);
    NamesTaken(r1, f);
    var r2 := Reading(NamesKept(r1.fields, f), true);
    NicknameTaken(r2, f.nickname);
    var r3 := r2.(fields := r2.fields.(nickname := TrimSpace(Lossy(f.nickname))));
    OrgTaken(r3, f);
    TitleTaken(r3.(fields := r3.fields.(company := Lossy(f.company), department := Lossy(f.department))), f.title);
  }

  lemma EmailsTaken(r: Reading, entries: seq<Entry>)
    requires r.hasData && r.fields.emails == []
    ensures TakenAll(r, EntryLines("EMAIL", entries)) == r.(fields := r.fields.(emails := KeptEntries(entries)))
  {
    EntriesTaken(r, "EMAIL", entries);
    assert [] + KeptEntries(entries) == KeptEntries(entries);
  }

  lemma PhonesTaken(r: Reading, entries: seq<Entry>)
    requires r.hasData && r.fields.phones == []
    ensures TakenAll(r, EntryLines("TEL", entries)) == r.(fields := r.fields.(phones := KeptEntries(entries)))
  {
    EntriesTaken(r, "TEL", entries);
    assert [] + KeptEntries(entries) == KeptEntries(entries);
  }

  lemma UrlsTaken(r: Reading, entries: seq<Entry>)
    requires r.hasData && r.fields.urls == []
    ensures TakenAll(r, EntryLines("URL", entries)) == r.(fields := r.fields.(urls := KeptEntries(entries)))
  {
    EntriesTaken(r, "URL", entries);
    assert [] + KeptEntries(entries) == KeptEntries(entries);
  }

  lemma ImsTaken(r: Reading, entries: seq<Entry>)
    requires r.hasData && r.fields.ims == []
    ensures TakenAll(r, EntryLines("IMPP", entries)) == r.(fields := r.fields.(ims := KeptEntries(entries)))
  {
    EntriesTaken(r, "IMPP", entries);
    assert [] + KeptEntries(entries) == KeptEntries(entries);
  }

  lemma ListsTaken(r: Reading, c: Contact)
    requires r.hasData
    requires r.fields.emails == [] && r.fields.phones == [] && r.fields.urls == [] && r.fields.ims == []
    ensures TakenAll(r, EntryLines("EMAIL", c.text.emails) + EntryLines("TEL", c.text.phones)
                        + EntryLines("URL", c.text.urls) + EntryLines("IMPP", c.text.ims)) ==
      r.(fields := r.fields.(emails := KeptEntries(c.text.emails), phones := KeptEntries(c.text.phones),
                             urls := KeptEntries(c.text.urls), ims := KeptEntries(c.text.ims)))
  {
    var f := c.text;
    var a, b := EntryLines("EMAIL", f.emails), EntryLines("TEL", f.phones);
    var d, e := EntryLines("URL", f.urls), EntryLines("IMPP", f.ims);
    TakenConcat(r, a, b);
    TakenConcat(r, a + b, d);
    TakenConcat(r, a + b + d, e);
    EmailsTaken(r, f.emails);
    var r1 := r.(fields := r.fields.(emails := KeptEntries(f.emails)));
    PhonesTaken(r1, f.phones);
    var r2 := r1.(fields := r1.fields.(phones := KeptEntries(f.phones)));
    UrlsTaken(r2, f.urls);
    ImsTaken(r2.(fields := r2.fields.(urls := KeptEntries(f.urls))), f.ims);
  }

  lemma BackTaken(r: Reading, c: Contact)
    requires r.hasData
    requires r.fields.emails == [] && r.fields.phones == [] && r.fields.urls == [] && r.fields.ims == []
    requires r.fields.addresses == [] && r.fields.groupNames == [] && r.fields.notes == ""
    ensures TakenAll(r, Back(c)) == r.(fields := r.fields.(
      emails := KeptEntries(c.text.emails), phones := KeptEntries(c.text.phones),
      urls := KeptEntries(c.text.urls), ims := KeptEntries(c.text.ims),
      addresses := KeptAddresses(c.text.addresses), groupNames := KeptNames(c.text.groupNames),
      notes := WithoutCR(c.text.notes)))
  {
    var f := c.text;
    var l1 := EntryLines("EMAIL", f.emails) + EntryLines("TEL", f.phones)
              + EntryLines("URL", f.urls) + EntryLines("IMPP", f.ims);
    var l2 := l1 + AddressLines(f.addresses);
    var l3 := l2 + DateLines("BDAY", c.birthday);
    var l4 := l3 + CategoryLines(f.groupNames);
    TakenConcat(r, l1, AddressLines(f.addresses));
    TakenConcat(r, l2, DateLines("BDAY", c.birthday));
    TakenConcat(r, l3, CategoryLines(f.groupNames));
    TakenConcat(r, l4, TextLines("NOTE", f.notes));
    ListsTaken(r, c);
    var r1 := r.(fields := r.fields.(emails := KeptEntries(f.emails), phones := KeptEntries(f.phones),
                                     urls := KeptEntries(f.urls), ims := KeptEntries(f.ims)));
    AddressesTaken(r1, f.addresses);
    assert [] + KeptAddresses(f.addresses) == KeptAddresses(f.addresses);
    var r2 := r1.(fields := r1.fields.(addresses := KeptAddresses(f.addresses)));
    DateTaken(r2, "BDAY", c.birthday);
    CategoriesTaken(r2, f.groupNames);
    NoteTaken(r2.(fields := r2.fields.(groupNames := KeptNames(f.groupNames))), f.notes);
  }

  /** A card read back holds data, and its fields are those kept. */
  lemma CardTaken(c: Contact)
    ensures var r := TakenAll(Reading(BLANK, false), Body(c)); r.hasData && Shown(r.fields) == Kept(c)
  {
    TakenConcat(Reading(BLANK, false), Front(c), Back(c));
    FrontTaken(c);
    BackTaken(Reading(FrontKept(c), true), c);
  }

  // ---------------------------------------------------------------- the lines of a card are plain

  predicate PlainLine(line: string) {
    OneLine(line) && !Continues(line) && !Begins(line) && !Ends(line)
  }

  predicate PlainLines(lines: seq<string>) {
    forall i | 0 <= i < |lines| :: PlainLine(lines[i])
  }

  lemma LinePlain(name: string, kind: string, value: string)
    requires KnownName(name) && Unbroken(kind) && '\n' !in value && '\r' !in value
    ensures PlainLines([ContentLine(name, kind, value)])
  {
    KnownNames(name);
    ContentLinePlain(name, kind, value);
  }

  lemma TextPlain(name: string, value: string)
    requires KnownName(name)
    ensures PlainLines(TextLines(name, value))
  {
    EscapeOneLine(value);
    LinePlain(name, "", Escape(value));
  }

  lemma DatePlain(name: string, date: Option<DateText>)
    requires KnownName(name)
    ensures PlainLines(DateLines(name, date))
  {
    if date.Some? {
      LinePlain(name, "", date.value);
    }
  }

  lemma JoinedPlain(name: string, kind: string, parts: seq<string>, sep: char)
    requires KnownName(name) && Unbroken(kind) && parts != [] && Separator(sep)
    ensures PlainLines([ContentLine(name, kind, Joined(parts, sep))])
  {
    JoinedOneLine(parts, sep);
    LinePlain(name, kind, Joined(parts, sep));
  }

  lemma NamesPlain(f: Fields)
    ensures PlainLines(NameLines(f))
  {
    EscapeOneLine(f.displayName);
    LinePlain("FN", "", Escape(f.displayName));
    JoinedPlain("N", "", Names(f), ';');
    var fn, n := [Line("FN", Escape(f.displayName))], [Line("N", Joined(Names(f), ';'))];
    assert NameLines(f) == fn + n;
    PlainConcat(fn, n);
  }

  lemma PlainConcat(a: seq<string>, b: seq<string>)
    requires PlainLines(a) && PlainLines(b)
    ensures PlainLines(a + b)
  {
  }

  lemma {:induction false} EntriesPlain(name: string, entries: seq<Entry>)
    requires EntryName(name) && KindsUnbroken(entries)
    ensures PlainLines(EntryLines(name, entries))
    decreases |entries|
  {
    if entries != [] {
      EscapeOneLine(entries[0].value);
      LinePlain(name, entries[0].kind, Escape(entries[0].value));
      EntriesPlain(name, entries[1..]);
      PlainConcat([ContentLine(name, entries[0].kind, Escape(entries[0].value))], EntryLines(name, entries[1..]));
    }
  }

  lemma {:induction false} AddressesPlain(addresses: seq<Address>)
    requires forall i | 0 <= i < |addresses| :: Unbroken(addresses[i].kind)
    ensures PlainLines(AddressLines(addresses))
    decreases |addresses|
  {
    if addresses != [] {
      var a := addresses[0];
      JoinedPlain("ADR", a.kind, AddressParts(a), ';');
      AddressesPlain(addresses[1..]);
      PlainConcat([ContentLine("ADR", a.kind, Joined(AddressParts(a), ';'))], AddressLines(addresses[1..]));
    }
  }

  lemma FrontPlain(c: Contact)
    requires Printable(c)
    ensures PlainLines(Front(c))
  {
    var f := c.text;
    LinePlain("VERSION", "", "4.0");
    TextPlain("UID", Identity(c));
    DatePlain("REV", c.rev);
    NamesPlain(f);
    TextPlain("NICKNAME", f.nickname);
    OrgPlain(f);
    TextPlain("TITLE", f.title);
  }

  lemma OrgPlain(f: Fields)
    ensures PlainLines(OrgLines(f))
  {
    JoinedPlain("ORG", "", [f.company, f.department], ';');
  }

  lemma CategoriesPlain(names: seq<string>)
    ensures PlainLines(CategoryLines(names))
  {
    if TrimmedNames(names) != [] {
      JoinedPlain("CATEGORIES", "", TrimmedNames(names), ',');
    }
  }

  lemma BackPlain(c: Contact)
    requires Printable(c)
    ensures PlainLines(Back(c))
  {
    var f := c.text;
    EntriesPlain("EMAIL", f.emails);
    EntriesPlain("TEL", f.phones);
    EntriesPlain("URL", f.urls);
    EntriesPlain("IMPP", f.ims);
    AddressesPlain(f.addresses);
    DatePlain("BDAY", c.birthday);
    CategoriesPlain(f.groupNames);
    TextPlain("NOTE", f.notes);
  }

  // ---------------------------------------------------------------- a whole export

  function Bodies(cs: seq<Contact>): seq<seq<string>> {
    if cs == [] then [] else [Body(cs[0])] + Bodies(cs[1..])
  }

  predicate AllPrintable(cs: seq<Contact>) {
    forall i | 0 <= i < |cs| :: Printable(cs[i])
  }

  predicate StandingLines(lines: seq<string>) {
    forall i | 0 <= i < |lines| :: OneLine(lines[i]) && !Continues(lines[i])
  }

  lemma WrappedStands(body: seq<string>)
    requires PlainLines(body)
    ensures StandingLines(Wrapped(body))
  {
    assert OneLine("BEGIN:VCARD") && OneLine("END:VCARD");
  }

  lemma CardPlain(c: Contact)
    requires Printable(c)
    ensures PlainLines(Body(c)) && StandingLines(CardLines(c))
  {
    FrontPlain(c);
    BackPlain(c);
    PlainConcat(Front(c), Back(c));
    CardWhole(c);
    WrappedStands(Body(c));
  }

  lemma StandingConcat(a: seq<string>, b: seq<string>)
    requires StandingLines(a) && StandingLines(b)
    ensures StandingLines(a + b)
  {
  }

  lemma {:induction false} AllStand(cs: seq<Contact>)
    requires AllPrintable(cs)
    ensures StandingLines(AllLines(cs))
    decreases |cs|
  {
    if cs != [] {
      CardPlain(cs[0]);
      AllStand(cs[1..]);
      StandingConcat(CardLines(cs[0]), AllLines(cs[1..]));
    }
  }

  /** The export splits into exactly the bodies of its cards. */
  lemma {:induction false} AllCards(cs: seq<Contact>)
    requires AllPrintable(cs)
    ensures Cards(AllLines(cs), false, []) == Bodies(cs)
    decreases |cs|
  {
    if cs != [] {
      AllCards(cs[1..]);
      FirstOfAll(cs);
    }
  }

  lemma FirstOfAll(cs: seq<Contact>)
    requires cs != [] && Printable(cs[0])
    ensures Cards(AllLines(cs), false, []) == [Body(cs[0])] + Cards(AllLines(cs[1..]), false, [])
  {
    CardFirst(cs[0], AllLines(cs[1..]));
  }

  lemma CardFirst(c: Contact, rest: seq<string>)
    requires Printable(c)
    ensures Cards(CardLines(c) + rest, false, []) == [Body(c)] + Cards(rest, false, [])
  {
    CardPlain(c);
    CardWhole(c);
    CardWrapped(Body(c), rest);
  }

  function UpTo<T>(s: seq<T>, n: nat): seq<T> {
    if |s| <= n then s else s[..n]
  }

  lemma BodyParsed(c: Contact)
    ensures Parsed(Body(c)) == Some(Kept(c))
  {
    CardTaken(c);
    assert |Front(c)| > 0;
  }

  function Found<T>(fs: seq<T>): seq<Option<T>> {
    if fs == [] then [] else [Some(fs[0])] + Found(fs[1..])
  }

  lemma FoundOne<T>(f: T, fs: seq<T>)
    ensures Found([f] + fs) == [Some(f)] + Found(fs)
  {
    assert ([f] + fs)[1..] == fs;
  }

  lemma ParsedOne(card: seq<string>, cards: seq<seq<string>>)
    ensures ParsedAll([card] + cards) == [Parsed(card)] + ParsedAll(cards)
  {
    assert ([card] + cards)[1..] == cards;
  }

  lemma {:induction false} BodiesParsed(cs: seq<Contact>)
    ensures ParsedAll(Bodies(cs)) == Found(KeptAll(cs))
    decreases |cs|
  {
    if cs != [] {
      ParsedOne(Body(cs[0]), Bodies(cs[1..]));
      BodyParsed(cs[0]);
      BodiesParsed(cs[1..]);
      FoundOne(Kept(cs[0]), KeptAll(cs[1..]));
    }
  }

  lemma CollectedOne<T>(f: T, parsed: seq<Option<T>>, out: seq<T>)
    ensures Collected([Some(f)] + parsed, out) ==
      if |out| + 1 >= MAX_VCARDS then out + [f] else Collected(parsed, out + [f])
  {
    assert ([Some(f)] + parsed)[1..] == parsed;
  }

  lemma UpToOne<T>(f: T, fs: seq<T>, n: nat)
    ensures UpTo([f] + fs, n + 1) == [f] + UpTo(fs, n)
  {
  }

  lemma {:induction false} FoundCollected<T>(fs: seq<T>, out: seq<T>)
    requires |out| < MAX_VCARDS
    ensures Collected(Found(fs), out) == out + UpTo(fs, MAX_VCARDS - |out|)
    decreases |fs|
  {
    if fs != [] {
      var f, rest, n := fs[0], fs[1..], MAX_VCARDS - |out| - 1;
      assert fs == [f] + rest;
      FoundOne(f, rest);
      CollectedOne(f, Found(rest), out);
      UpToOne(f, rest, n);
      Assoc(out, [f], UpTo(rest, n));
      if n > 0 {
        FoundCollected(rest, out + [f]);
      } else {
        assert UpTo(rest, n) == [];
      }
    }
  }

  /** The cards of an export are collected as what is kept of the first contacts. */
  lemma BodiesCollected(cs: seq<Contact>)
    ensures Collected(ParsedAll(Bodies(cs)), []) == UpTo(KeptAll(cs), MAX_VCARDS)
  {
    BodiesParsed(cs);
    FoundTaken(KeptAll(cs));
  }

  lemma FoundTaken<T>(fs: seq<T>)
    ensures Collected(Found(fs), []) == UpTo(fs, MAX_VCARDS)
  {
    FoundCollected(fs, []);
    assert [] + UpTo(fs, MAX_VCARDS) == UpTo(fs, MAX_VCARDS);
  }

  /**
   Importing an export, folded in any way, gives for each of its first 5000 contacts, in order, exactly
   the fields kept, and nothing else.
   */
  lemma ExportImport(cs: seq<Contact>, folded: seq<Folded>, mark: char)
    requires AllPrintable(cs)
    requires mark == ' ' || mark == '\t'
    requires WholeLines(folded) == AllLines(cs)
    requires forall i | 0 <= i < |folded| :: !Continues(folded[i].head)
    requires forall i | 0 <= i < |FoldedLines(folded, mark)| :: OneLine(FoldedLines(folded, mark)[i])
    ensures Imported(Printed(FoldedLines(folded, mark))) == UpTo(KeptAll(cs), 5000)
  {
    FoldedRead(folded, mark);
    AllCards(cs);
    BodiesCollected(cs);
  }

  lemma FoldedRead(folded: seq<Folded>, mark: char)
    requires mark == ' ' || mark == '\t'
    requires forall i | 0 <= i < |folded| :: !Continues(folded[i].head)
    requires forall i | 0 <= i < |FoldedLines(folded, mark)| :: OneLine(FoldedLines(folded, mark)[i])
    ensures Unfolded(Physical(Printed(FoldedLines(folded, mark))), []) == WholeLines(folded)
  {
    PrintedPhysical(FoldedLines(folded, mark));
    UnfoldUndoesFolding(folded, mark, []);
    assert [] + WholeLines(folded) == WholeLines(folded);
  }

  /** The export as it is written, without folds. */
  lemma ExportImportPlain(cs: seq<Contact>)
    requires AllPrintable(cs)
    ensures Imported(Printed(AllLines(cs))) == UpTo(KeptAll(cs), 5000)
  {
    var lines := AllLines(cs);
    AllStand(cs);
    LinesRead(lines);
    AllCards(cs);
    BodiesCollected(cs);
  }

  lemma LinesRead(lines: seq<string>)
    requires StandingLines(lines)
    ensures Unfolded(Physical(Printed(lines)), []) == lines
  {
    PrintedPhysical(lines);
    UnfoldPlain(lines, []);
    assert [] + lines == lines;
  }

  // ---------------------------------------------------------------- when everything is kept

  /** The fields of a faithful round trip: the id stands in for a missing UID, the names for a missing display name. */
  function Same(c: Contact): Fields {
    var f := c.text;
    var name := if f.givenName == "" then f.familyName
                else if f.familyName == "" then f.givenName
                else f.givenName + " " + f.familyName;
    f.(uid := if f.uid == "" then c.id else f.uid,
       displayName := if f.displayName == "" then name else f.displayName)
  }

  lemma SameShown(c: Contact)
    ensures Same(c) == Shown(c.text.(uid := Identity(c)))
  {
    JoinTwo(c.text.givenName, c.text.familyName);
  }

  predicate FaithfulEntry(e: Entry) {
    Firm(e.value) && Token(e.kind)
  }

  predicate FaithfulEntries(entries: seq<Entry>) {
    forall i | 0 <= i < |entries| :: FaithfulEntry(entries[i])
  }

  predicate FaithfulAddress(a: Address) {
    && Token(a.kind) && a != NO_ADDRESS
    && Sturdy(a.street) && Sturdy(a.locality) && Sturdy(a.region) && Sturdy(a.postalCode) && Sturdy(a.country)
  }

  predicate FaithfulName(name: string) {
    name != "" && Sturdy(name) && Trimmed(name)
  }

  predicate FaithfulNames(f: Fields) {
    && Sturdy(f.familyName) && Sturdy(f.givenName) && Sturdy(f.middleName)
    && Sturdy(f.namePrefix) && Sturdy(f.nameSuffix)
    && Sturdy(f.nickname) && Trimmed(f.nickname) && Sturdy(f.company) && Sturdy(f.department)
  }

  predicate Faithful(c: Contact) {
    '\r' !in c.text.displayName && FaithfulOthers(c)
  }

  /** Everything but the display name. */
  predicate FaithfulOthers(c: Contact) {
    && '\r' !in (if c.text.uid == "" then c.id else c.text.uid) && '\r' !in c.text.title && '\r' !in c.text.notes
    && FaithfulNames(c.text)
    && FaithfulEntries(c.text.emails) && FaithfulEntries(c.text.phones)
    && FaithfulEntries(c.text.urls) && FaithfulEntries(c.text.ims)
    && (forall i | 0 <= i < |c.text.addresses| :: FaithfulAddress(c.text.addresses[i]))
    && (forall i | 0 <= i < |c.text.groupNames| :: FaithfulName(c.text.groupNames[i]))
  }

  lemma TrimmedComponentKeptIff(s: string)
    ensures TrimSpace(Lossy(s)) == s <==> Sturdy(s) && Trimmed(s)
  {
    ComponentKeptIff(s);
    TrimShrinks(Lossy(s));
    if Trimmed(s) {
      TrimmedStays(s);
    }
  }

  lemma KeptEntryKind(e: Entry)
    ensures KeptEntry(e) != [] ==> KeptEntry(e)[0].kind == KindRead(e.kind)
  {
  }

  lemma KeptEntryPlain(e: Entry)
    requires Token(e.kind)
    ensures KeptEntry(e) == if Shave(e.value) == "" then [] else [Entry(WithoutCR(Shave(e.value)), e.kind)]
  {
    KindKeptIff(e.kind);
    TrimmedValue(e.value);
    assert ValueRead(e.kind, Escape(e.value)) == Escape(e.value);
  }

  lemma EntryKeptIff(e: Entry)
    ensures KeptEntry(e) == [e] <==> FaithfulEntry(e)
  {
    KindKeptIff(e.kind);
    if Token(e.kind) {
      KeptEntryPlain(e);
      TrimmedValueKeptIff(e.value);
    } else {
      KeptEntryKind(e);
    }
  }

  lemma {:induction false} EntriesKeptIff(entries: seq<Entry>)
    ensures KeptEntries(entries) == entries <==> FaithfulEntries(entries)
    decreases |entries|
  {
    if entries != [] {
      EntryKeptIff(entries[0]);
      EntriesKeptIff(entries[1..]);
      HeadTail(KeptEntry(entries[0]), KeptEntries(entries[1..]), entries);
      assert forall i | 0 < i < |entries| :: entries[i] == entries[1..][i - 1];
    }
  }

  lemma HeadTail<T>(a: seq<T>, b: seq<T>, all: seq<T>)
    requires all != [] && |a| <= 1 && |b| <= |all| - 1
    ensures a + b == all <==> a == [all[0]] && b == all[1..]
  {
  }

  lemma AddressKeptIff(a: Address)
    ensures KeptIfAny(a) == [a] <==> FaithfulAddress(a)
  {
    KindKeptIff(a.kind);
    if Token(a.kind) {
      AddressParsed(a);
      ComponentKeptIff(a.street);
      ComponentKeptIff(a.locality);
      ComponentKeptIff(a.region);
      ComponentKeptIff(a.postalCode);
      ComponentKeptIff(a.country);
    }
  }

  lemma AddressParsed(a: Address)
    requires Token(a.kind)
    ensures KeptAddress(a) ==
      Address(a.kind, Lossy(a.street), Lossy(a.locality), Lossy(a.region), Lossy(a.postalCode), Lossy(a.country))
  {
    KindKeptIff(a.kind);
    SplitJoined(AddressParts(a), ';');
  }

  lemma {:induction false} AddressesKeptIff(addresses: seq<Address>)
    ensures KeptAddresses(addresses) == addresses <==> forall i | 0 <= i < |addresses| :: FaithfulAddress(addresses[i])
    decreases |addresses|
  {
    if addresses != [] {
      AddressKeptIff(addresses[0]);
      AddressesKeptIff(addresses[1..]);
      HeadTail(KeptIfAny(addresses[0]), KeptAddresses(addresses[1..]), addresses);
      assert forall i | 0 < i < |addresses| :: addresses[i] == addresses[1..][i - 1];
    }
  }

  lemma NameKeptIff(name: string)
    ensures KeptName(name) == [name] <==> FaithfulName(name)
  {
    TrimShrinks(name);
    ComponentKeptIff(TrimSpace(name));
    TrimShrinks(Lossy(TrimSpace(name)));
    TrimmedComponentKeptIff(name);
    if Trimmed(name) {
      TrimmedStays(name);
    }
  }

  lemma {:induction false} GroupsKeptIff(names: seq<string>)
    ensures KeptNames(names) == names <==> forall i | 0 <= i < |names| :: FaithfulName(names[i])
    decreases |names|
  {
    if names != [] {
      NameKeptIff(names[0]);
      GroupsKeptIff(names[1..]);
      HeadTail(KeptName(names[0]), KeptNames(names[1..]), names);
      assert forall i | 0 < i < |names| :: names[i] == names[1..][i - 1];
    }
  }

  lemma NamesKeptIff(c: Contact)
    ensures FaithfulNames(c.text) <==>
      (var f := c.text;
       && Lossy(f.familyName) == f.familyName && Lossy(f.givenName) == f.givenName
       && Lossy(f.middleName) == f.middleName
       && Lossy(f.namePrefix) == f.namePrefix && Lossy(f.nameSuffix) == f.nameSuffix
       && TrimSpace(Lossy(f.nickname)) == f.nickname
       && Lossy(f.company) == f.company && Lossy(f.department) == f.department)
  {
    var f := c.text;
    ComponentKeptIff(f.familyName);
    ComponentKeptIff(f.givenName);
    ComponentKeptIff(f.middleName);
    ComponentKeptIff(f.namePrefix);
    ComponentKeptIff(f.nameSuffix);
    ComponentKeptIff(f.company);
    ComponentKeptIff(f.department);
    TrimmedComponentKeptIff(f.nickname);
  }

  lemma JoinTwo(a: string, b: string)
    ensures JoinNames([a, b], "") == if a == "" then b else if b == "" then a else a + " " + b
  {
    assert [a, b][1..] == [b] && [b][1..] == [];
    assert "" + a == a && "" + b == b;
    assert JoinNames([a, b], "") == JoinNames([b], a);
    assert JoinNames([b], a) == if b == "" then a else if a == "" then b else a + " " + b;
  }

  /** A display name of carriage returns only is not made up for by the names. */
  lemma DisplayNameKeptIff(displayName: string, given: string, family: string)
    requires '\r' !in given && '\r' !in family
    ensures (if WithoutCR(displayName) == "" then JoinNames([given, family], "") else WithoutCR(displayName)) ==
            (if displayName == "" then JoinNames([given, family], "") else displayName)
            <==> '\r' !in displayName
  {
    JoinTwo(given, family);
  }

  function Unnamed(f: Fields): Fields {
    f.(displayName := "")
  }

  lemma OthersKeptIff(c: Contact)
    ensures Unnamed(KeptBefore(c)) == Unnamed(c.text.(uid := Identity(c))) <==> FaithfulOthers(c)
  {
    NamesKeptIff(c);
    EntriesKeptIff(c.text.emails);
    EntriesKeptIff(c.text.phones);
    EntriesKeptIff(c.text.urls);
    EntriesKeptIff(c.text.ims);
    AddressesKeptIff(c.text.addresses);
    GroupsKeptIff(c.text.groupNames);
  }

  lemma ShownSplit(f: Fields, g: Fields)
    ensures Shown(f) == Shown(g) <==> Unnamed(f) == Unnamed(g) && Shown(f).displayName == Shown(g).displayName
  {
  }

  /**
   What is kept of a contact is what it was if and only if: its plain texts have no carriage return; the
   parts of its name, company and addresses have no line break and no backslash but possibly at the very
   end; its values have no carriage return, are not blank and have no white space at either end (a line
   feed there is kept); its nickname and groups are trimmed too; its types are trimmed and lower-case
   without comma, colon and semicolon; and none of its addresses or groups is empty.
   */
  lemma ContactKeptIff(c: Contact)
    ensures Kept(c) == Same(c) <==> Faithful(c)
  {
    SameShown(c);
    ShownSplit(KeptBefore(c), c.text.(uid := Identity(c)));
    OthersKeptIff(c);
    if FaithfulOthers(c) {
      assert Unnamed(KeptBefore(c)).givenName == c.text.givenName;
      assert Unnamed(KeptBefore(c)).familyName == c.text.familyName;
      DisplayNameKeptIff(c.text.displayName, c.text.givenName, c.text.familyName);
    }
  }

  function SameAll(cs: seq<Contact>): (r: seq<Fields>)
    ensures |r| == |cs|
  {
    if cs == [] then [] else [Same(cs[0])] + SameAll(cs[1..])
  }

  predicate AllFaithful(cs: seq<Contact>) {
    forall i | 0 <= i < |cs| :: Faithful(cs[i])
  }

  lemma {:induction false} AllKeptIff(cs: seq<Contact>)
    ensures KeptAll(cs) == SameAll(cs) <==> AllFaithful(cs)
    decreases |cs|
  {
    if cs != [] {
      ContactKeptIff(cs[0]);
      AllKeptIff(cs[1..]);
      HeadsAndTails(Kept(cs[0]), KeptAll(cs[1..]), Same(cs[0]), SameAll(cs[1..]));
      FaithfulFirst(cs);
    }
  }

  lemma FaithfulFirst(cs: seq<Contact>)
    requires cs != []
    ensures AllFaithful(cs) <==> Faithful(cs[0]) && AllFaithful(cs[1..])
  {
    assert forall i | 0 < i < |cs| :: cs[i] == cs[1..][i - 1];
  }

  lemma HeadsAndTails<T>(x: T, xs: seq<T>, y: T, ys: seq<T>)
    ensures [x] + xs == [y] + ys <==> x == y && xs == ys
  {
    assert ([x] + xs)[0] == x && ([x] + xs)[1..] == xs;
    assert ([y] + ys)[0] == y && ([y] + ys)[1..] == ys;
  }

  // ---------------------------------------------------------------- no import has a broken type

  lemma TrimBreaksOneLine(s: string)
    requires s != "" && '\n' !in s[..|s| - 1]
    ensures '\n' !in TrimBreaks(s)
  {
    BreaksOff(s[..|s| - 1]);
  }

  lemma {:induction false} BreaksOff(s: string)
    ensures TrimBreaks(s) <= s
  {
    if s != "" && Break(s[|s| - 1]) {
      BreaksOff(s[..|s| - 1]);
    }
  }

  predicate OneLiners(lines: seq<string>) {
    forall i | 0 <= i < |lines| :: '\n' !in lines[i]
  }

  lemma {:induction false} PhysicalOneLiners(text: string)
    ensures OneLiners(Physical(text))
    decreases |text|
  {
    if text != "" {
      var n := Find(text, '\n');
      if n == |text| {
        assert text[..n] == text;
        BreaksOff(text);
      } else {
        assert text[..n + 1][..n] == text[..n];
        TrimBreaksOneLine(text[..n + 1]);
        PhysicalOneLiners(text[n + 1..]);
      }
    }
  }

  lemma {:induction false} UnfoldedOneLiners(physical: seq<string>, lines: seq<string>)
    requires OneLiners(physical) && OneLiners(lines)
    ensures OneLiners(Unfolded(physical, lines))
    decreases |physical|
  {
    if physical != [] {
      var p, rest := physical[0], physical[1..];
      if !Continues(p) {
        UnfoldedOneLiners(rest, lines + [p]);
      } else if lines == [] {
        UnfoldedOneLiners(rest, lines);
      } else {
        UnfoldedOneLiners(rest, lines[|lines| - 1 := lines[|lines| - 1] + p[1..]]);
      }
    }
  }

  lemma {:induction false} CardsOneLiners(lines: seq<string>, inside: bool, card: seq<string>)
    requires OneLiners(lines) && OneLiners(card)
    ensures forall i | 0 <= i < |Cards(lines, inside, card)| :: OneLiners(Cards(lines, inside, card)[i])
    decreases |lines|
  {
    if lines != [] {
      var rest := lines[1..];
      if Begins(lines[0]) {
        CardsOneLiners(rest, true, []);
      } else if Ends(lines[0]) {
        CardsOneLiners(rest, false, []);
      } else {
        CardsOneLiners(rest, inside, if inside then card + [lines[0]] else card);
      }
    }
  }

  lemma OtherTaken(r: Reading, p: Property)
    requires !EntryName(p.name) && p.name != "ADR"
    ensures var f, g := r.fields, Taken(r, p).fields;
      g.emails == f.emails && g.phones == f.phones && g.urls == f.urls && g.ims == f.ims && g.addresses == f.addresses
  {
  }

  lemma AdrTaken(r: Reading, p: Property)
    requires p.name == "ADR"
    ensures var f, g := r.fields, Taken(r, p).fields;
      && g == f.(addresses := g.addresses)
      && (g.addresses == f.addresses || g.addresses == f.addresses + [AddressOf(p.value, TypeOf(p.params))])
  {
  }

  lemma EntryNameTaken(r: Reading, p: Property)
    requires EntryName(p.name)
    ensures Taken(r, p).fields ==
      WithEntries(r.fields, p.name, Added(EntriesOf(r.fields, p.name), p.value, TypeOf(p.params)))
  {
  }

  lemma AddedUnbroken(entries: seq<Entry>, value: string, kind: string)
    requires KindsUnbroken(entries) && Unbroken(kind)
    ensures KindsUnbroken(Added(entries, value, kind))
  {
  }

  lemma TakenUnbroken(r: Reading, p: Property)
    requires FieldsUnbroken(r.fields) && Unbroken(TypeOf(p.params))
    ensures FieldsUnbroken(Taken(r, p).fields)
  {
    if EntryName(p.name) {
      EntryNameTaken(r, p);
      AddedUnbroken(EntriesOf(r.fields, p.name), p.value, TypeOf(p.params));
    } else if p.name == "ADR" {
      AdrTaken(r, p);
    } else {
      OtherTaken(r, p);
    }
  }

  lemma {:induction false} TakenAllUnbroken(r: Reading, lines: seq<string>)
    requires FieldsUnbroken(r.fields) && OneLiners(lines)
    ensures FieldsUnbroken(TakenAll(r, lines).fields)
    decreases |lines|
  {
    if lines != [] {
      TypeOneLine(lines[0]);
      TakenUnbroken(r, PropertyOf(lines[0]));
      TakenAllUnbroken(Taken(r, PropertyOf(lines[0])), lines[1..]);
    }
  }

  predicate AllUnbroken(fs: seq<Fields>) {
    forall i | 0 <= i < |fs| :: FieldsUnbroken(fs[i])
  }

  lemma {:induction false} ParsedUnbroken(cards: seq<seq<string>>)
    requires forall i | 0 <= i < |cards| :: OneLiners(cards[i])
    ensures forall i | 0 <= i < |ParsedAll(cards)| ::
      ParsedAll(cards)[i].Some? ==> FieldsUnbroken(ParsedAll(cards)[i].value)
    decreases |cards|
  {
    if cards != [] {
      TakenAllUnbroken(Reading(BLANK, false), cards[0]);
      ParsedUnbroken(cards[1..]);
    }
  }

  lemma {:induction false} CollectedFrom<T>(parsed: seq<Option<T>>, out: seq<T>)
    ensures forall x | x in Collected(parsed, out) :: x in out || Some(x) in parsed
    decreases |parsed|
  {
    if parsed != [] {
      if parsed[0].None? {
        CollectedFrom(parsed[1..], out);
      } else {
        CollectedFrom(parsed[1..], out + [parsed[0].value]);
      }
    }
  }

  /** No text at all is imported with a line feed in a type. */
  lemma ImportedUnbroken(text: string)
    ensures AllUnbroken(Imported(text))
  {
    PhysicalOneLiners(text);
    var lines := Unfolded(Physical(text), []);
    UnfoldedOneLiners(Physical(text), []);
    CardsOneLiners(lines, false, []);
    var parsed := ParsedAll(Cards(lines, false, []));
    ParsedUnbroken(Cards(lines, false, []));
    CollectedFrom(parsed, []);
    forall i | 0 <= i < |Imported(text)| ensures FieldsUnbroken(Imported(text)[i]) {
      assert Some(Imported(text)[i]) in parsed;
    }
  }

  lemma {:induction false} SameUnbroken(cs: seq<Contact>)
    requires AllUnbroken(SameAll(cs))
    ensures AllPrintable(cs)
    decreases |cs|
  {
    if cs != [] {
      assert SameAll(cs)[0] == Same(cs[0]);
      assert forall i | 0 <= i < |cs| - 1 :: SameAll(cs[1..])[i] == SameAll(cs)[i + 1];
      SameUnbroken(cs[1..]);
      assert forall i | 0 < i < |cs| :: cs[i] == cs[1..][i - 1];
    }
  }

  /**
   An export is lossless if and only if it fits the cap of an import and every contact is faithful and
   has no line feed in a type.
   */
  lemma LosslessIff(cs: seq<Contact>)
    ensures Imported(Printed(AllLines(cs))) == SameAll(cs)
       <==> |cs| <= 5000 && AllPrintable(cs) && AllFaithful(cs)
  {
    var imported := Imported(Printed(AllLines(cs)));
    if AllPrintable(cs) {
      PrintableLosslessIff(cs);
    } else if imported == SameAll(cs) {
      ImportedUnbroken(Printed(AllLines(cs)));
      SameUnbroken(cs);
    }
  }

  lemma PrintableLosslessIff(cs: seq<Contact>)
    requires AllPrintable(cs)
    ensures Imported(Printed(AllLines(cs))) == SameAll(cs) <==> |cs| <= MAX_VCARDS && AllFaithful(cs)
  {
    var imported := Imported(Printed(AllLines(cs)));
    assert imported == UpTo(KeptAll(cs), MAX_VCARDS) by {
      ExportImportPlain(cs);
    }
    AllKeptIff(cs);
    UpToWhole(imported, KeptAll(cs), SameAll(cs), MAX_VCARDS);
  }

  lemma UpToWhole<T>(got: seq<T>, s: seq<T>, t: seq<T>, n: nat)
    requires |s| == |t| && got == UpTo(s, n)
    ensures got == t <==> |s| <= n && s == t
  {
  }
}
