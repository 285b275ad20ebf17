/** The fingerprint text is unambiguous and canonical: it reads back, and it is equal exactly for equal values. */
module CanonicalJson {
  import opened Common
  import opened JsonText
  import opened StableJson

  // ---- Reading back ----

  predicate Delimited(rest: Text) {
    rest == [] || rest[0] == COMMA || rest[0] == CLOSE_BRACKET || rest[0] == CLOSE_BRACE
  }

  /** Whatever may follow a value in JSON, the text reads as this value and no more of it is used. */
  ghost predicate Reads(text: Text, v: Json) {
    forall rest :: Delimited(rest) ==> ReadValue(text + rest) == Some((v, rest))
  }

  lemma {:induction false} DigitsRead(digits: Text, rest: Text)
    requires forall i :: 0 <= i < |digits| ==> IsNumeric(digits[i])
    requires Delimited(rest)
    ensures ReadNumber(digits + rest) == (digits, rest)
  {
    if digits == [] {
      assert digits + rest == rest;
    } else {
      DigitsRead(digits[1..], rest);
      assert (digits + rest)[1..] == digits[1..] + rest;
      assert digits == [digits[0]] + digits[1..];
    }
  }

  lemma NumberReads(text: Text)
    requires WellFormed(Number(text))
    ensures Reads(text, Number(text))
  {
    forall rest | Delimited(rest)
      ensures ReadValue(text + rest) == Some((Number(text), rest))
    {
      DigitsRead(text[1..], rest);
      assert (text + rest)[1..] == text[1..] + rest;
      assert text == [text[0]] + text[1..];
    }
  }

  lemma LiteralsRead()
    ensures Reads(NULL, Null) && Reads(TRUE, Bool(true)) && Reads(FALSE, Bool(false))
  {
    forall rest
      ensures ReadValue(NULL + rest) == Some((Null, rest))
    {
      assert (NULL + rest)[4..] == rest && NULL <= NULL + rest;
    }
    forall rest
      ensures ReadValue(TRUE + rest) == Some((Bool(true), rest))
    {
      assert (TRUE + rest)[4..] == rest && TRUE <= TRUE + rest;
    }
    forall rest
      ensures ReadValue(FALSE + rest) == Some((Bool(false), rest))
    {
      assert (FALSE + rest)[5..] == rest && FALSE <= FALSE + rest;
    }
  }

  lemma QuotedReads(s: Text, rest: Text)
    ensures Quote(s) + rest != [] && (Quote(s) + rest)[0] == QUOTE
    ensures ReadString((Quote(s) + rest)[1..]) == Some((s, rest))
  {
    ReadsEscaped(s, rest);
    assert (Quote(s) + rest)[1..] == Escape(s) + ([QUOTE] + rest);
  }

  lemma StringReads(s: Text)
    ensures Reads(Quote(s), Str(s))
  {
    hide Quote;
    forall rest | Delimited(rest)
      ensures ReadValue(Quote(s) + rest) == Some((Str(s), rest))
    {
      QuotedReads(s, rest);
    }
  }

  lemma ReadsFollowed(text: Text, v: Json, rest: Text)
    requires Reads(text, v) && Delimited(rest)
    ensures ReadValue(text + rest) == Some((v, rest))
  {
  }

  lemma ReadsNonEmpty(text: Text, v: Json)
    requires Reads(text, v)
    ensures text != [] && text[0] != CLOSE_BRACKET && text[0] != CLOSE_BRACE
  {
    assert text + [] == text;
    ReadsFollowed(text, v, []);
  }

  lemma {:induction false} ItemsRead(parts: seq<Text>, items: seq<Json>, rest: Text)
    requires |parts| == |items| > 0
    requires forall i :: 0 <= i < |parts| ==> Reads(parts[i], items[i])
    ensures ReadItems(Join(parts) + ([CLOSE_BRACKET] + rest)) == Some((items, rest))
  {
    hide ReadValue, Reads;
    var close := [CLOSE_BRACKET] + rest;
    if |parts| == 1 {
      ReadsFollowed(parts[0], items[0], close);
      assert close[1..] == rest;
      assert items == [items[0]];
    } else {
      ItemsRead(parts[1..], items[1..], rest);
      var more := Join(parts[1..]) + close;
      ReadsFollowed(parts[0], items[0], [COMMA] + more);
      assert Join(parts) + close == parts[0] + ([COMMA] + more);
      assert ([COMMA] + more)[1..] == more;
      assert items == [items[0]] + items[1..];
    }
  }

  /** Entries of printed values beside the entries they read as. */
  ghost predicate EntriesRead(entries: seq<Entry<Text>>, fields: seq<Entry<Json>>) {
    && |entries| == |fields|
    && forall i :: 0 <= i < |entries| ==>
         entries[i].key == fields[i].key && Reads(entries[i].value, fields[i].value)
  }

  lemma MemberReads(key: Text, text: Text, v: Json, rest: Text)
    requires Reads(text, v) && Delimited(rest)
    ensures
      var t := Quote(key) + [COLON] + text + rest;
      && t[0] == QUOTE
      && ReadString(t[1..]) == Some((key, [COLON] + (text + rest)))
      && ReadValue(([COLON] + (text + rest))[1..]) == Some((v, rest))
  {
    hide Quote, Reads, ReadValue, ReadString;
    var after := [COLON] + (text + rest);
    QuotedReads(key, after);
    ReadsFollowed(text, v, rest);
    Assoc(Quote(key) + [COLON], text, rest);
    Assoc(Quote(key), [COLON], text + rest);
    assert after[1..] == text + rest;
  }

  lemma {:induction false} MembersRead(entries: seq<Entry<Text>>, fields: seq<Entry<Json>>, rest: Text)
    requires EntriesRead(entries, fields) && |entries| > 0
    ensures ReadMembers(Join(Members(entries)) + ([CLOSE_BRACE] + rest)) == Some((fields, rest))
  {
    hide ReadValue, ReadString, Reads, Quote;
    var e := entries[0];
    var part := Quote(e.key) + [COLON] + e.value;
    var close := [CLOSE_BRACE] + rest;
    assert Members(entries)[0] == part && Members(entries)[1..] == Members(entries[1..]);
    if |entries| == 1 {
      MemberReads(e.key, e.value, fields[0].value, close);
      assert Join(Members(entries)) + close == part + close;
      assert close[1..] == rest;
      assert fields == [Entry(e.key, fields[0].value)];
    } else {
      MembersRead(entries[1..], fields[1..], rest);
      var more := Join(Members(entries[1..])) + close;
      MemberReads(e.key, e.value, fields[0].value, [COMMA] + more);
      assert Join(Members(entries)) + close == part + ([COMMA] + more);
      assert ([COMMA] + more)[1..] == more;
      assert fields == [Entry(e.key, fields[0].value)] + fields[1..];
    }
  }

  lemma ReadingCons(e: Entry<Text>, f: Entry<Json>, entries: seq<Entry<Text>>, fields: seq<Entry<Json>>)
    requires e.key == f.key && Reads(e.value, f.value) && EntriesRead(entries, fields)
    ensures EntriesRead([e] + entries, [f] + fields)
  {
  }

  lemma {:induction false} InsertKeepsReading(e: Entry<Text>, f: Entry<Json>,
                                              entries: seq<Entry<Text>>, fields: seq<Entry<Json>>)
    requires e.key == f.key && Reads(e.value, f.value) && EntriesRead(entries, fields)
    ensures EntriesRead(InsertEntry(e, entries), InsertEntry(f, fields))
  {
    hide Reads, Less;
    if entries != [] && !Less(e.key, entries[0].key) {
      InsertKeepsReading(e, f, entries[1..], fields[1..]);
      ReadingCons(entries[0], fields[0], InsertEntry(e, entries[1..]), InsertEntry(f, fields[1..]));
    } else {
      ReadingCons(e, f, entries, fields);
    }
  }

  /** Sorting looks at keys only, so it moves what is printed and what it reads as together. */
  lemma {:induction false} SortKeepsReading(entries: seq<Entry<Text>>, fields: seq<Entry<Json>>)
    requires EntriesRead(entries, fields)
    ensures EntriesRead(SortEntries(entries), SortEntries(fields))
  {
    hide Reads;
    if entries != [] {
      SortKeepsReading(entries[1..], fields[1..]);
      InsertKeepsReading(entries[0], fields[0], SortEntries(entries[1..]), SortEntries(fields[1..]));
    }
  }

  lemma ArrayReads(parts: seq<Text>, items: seq<Json>)
    requires |parts| == |items| && forall i :: 0 <= i < |parts| ==> Reads(parts[i], items[i])
    ensures Reads([OPEN_BRACKET] + Join(parts) + [CLOSE_BRACKET], Array(items))
  {
    hide Reads, ReadItems;
    var text := [OPEN_BRACKET] + Join(parts) + [CLOSE_BRACKET];
    forall rest | Delimited(rest)
      ensures ReadValue(text + rest) == Some((Array(items), rest))
    {
      var tail := Join(parts) + ([CLOSE_BRACKET] + rest);
      assert text + rest == [OPEN_BRACKET] + tail;
      assert (text + rest)[1..] == tail;
      if parts == [] {
        assert (text + rest)[2..] == rest;
      } else {
        ReadsNonEmpty(parts[0], items[0]);
        ItemsRead(parts, items, rest);
        assert (text + rest)[1] == parts[0][0];
      }
    }
    ReadsIntro(text, Array(items));
  }

  lemma ReadsIntro(text: Text, v: Json)
    requires forall rest :: Delimited(rest) ==> ReadValue(text + rest) == Some((v, rest))
    ensures Reads(text, v)
  {
  }

  lemma ObjectReads(entries: seq<Entry<Text>>, fields: seq<Entry<Json>>)
    requires EntriesRead(entries, fields)
    ensures Reads([OPEN_BRACE] + Join(Members(entries)) + [CLOSE_BRACE], Object(fields))
  {
    hide Reads, ReadMembers;
    var text := [OPEN_BRACE] + Join(Members(entries)) + [CLOSE_BRACE];
    forall rest | Delimited(rest)
      ensures ReadValue(text + rest) == Some((Object(fields), rest))
    {
      var tail := Join(Members(entries)) + ([CLOSE_BRACE] + rest);
      assert text + rest == [OPEN_BRACE] + tail;
      assert (text + rest)[1..] == tail;
      if entries == [] {
        assert (text + rest)[2..] == rest;
      } else {
        MembersRead(entries, fields, rest);
        assert (text + rest)[1] == Members(entries)[0][0] == QUOTE;
      }
    }
    ReadsIntro(text, Object(fields));
  }

  /**
   Reading the fingerprint text gives back the value, with undefined as null and keys in order;
   so the text says everything about the value except those two things.
   */
  lemma {:induction false} StableReads(v: Json)
    requires WellFormed(v)
    ensures Reads(Stable(v), Norm(v))
    decreases v
  {
    hide Reads;
    match v
    case Undefined => LiteralsRead();
    case Null => LiteralsRead();
    case Bool(b) => LiteralsRead();
    case Number(text) => NumberReads(text);
    case Str(s) => StringReads(s);
    case Array(items) =>
      forall i | 0 <= i < |items|
        ensures Reads(Stable(items[i]), Norm(items[i]))
      {
        StableReads(items[i]);
      }
      ArrayReads(StableItems(items), NormItems(items));
    case Object(fields) =>
      forall i | 0 <= i < |fields|
        ensures Reads(Stable(fields[i].value), Norm(fields[i].value))
      {
        StableReads(fields[i].value);
      }
      SortKeepsReading(StableFields(fields), NormFields(fields));
      ObjectReads(SortEntries(StableFields(fields)), SortEntries(NormFields(fields)));
  }

  // ---- Sorting by key ----

  ghost predicate KeyOrdered<V>(entries: seq<Entry<V>>) {
    forall i, j :: 0 <= i < j < |entries| ==> Less(entries[i].key, entries[j].key)
  }

  ghost predicate SameEntries<V>(a: seq<Entry<V>>, b: seq<Entry<V>>) {
    (forall e :: e in a ==> e in b) && (forall e :: e in b ==> e in a)
  }

  lemma {:induction false} InsertOrdered<V>(e: Entry<V>, sorted: seq<Entry<V>>)
    requires KeyOrdered(sorted) && forall i :: 0 <= i < |sorted| ==> sorted[i].key != e.key
    ensures KeyOrdered(InsertEntry(e, sorted)) && SameEntries(InsertEntry(e, sorted), [e] + sorted)
  {
    if sorted == [] {
    } else if Less(e.key, sorted[0].key) {
      forall i | 0 <= i < |sorted|
        ensures Less(e.key, sorted[i].key)
      {
        if i > 0 { LessTransitive(e.key, sorted[0].key, sorted[i].key); }
      }
    } else {
      LessTotal(e.key, sorted[0].key);
      InsertOrdered(e, sorted[1..]);
      var r := InsertEntry(e, sorted[1..]);
      forall i | 0 <= i < |r|
        ensures Less(sorted[0].key, r[i].key)
      {
        assert r[i] in [e] + sorted[1..];
      }
      assert sorted == [sorted[0]] + sorted[1..];
    }
  }

  lemma {:induction false} SortOrdered<V>(entries: seq<Entry<V>>)
    requires DistinctKeys(entries)
    ensures KeyOrdered(SortEntries(entries)) && SameEntries(SortEntries(entries), entries)
  {
    if entries != [] {
      SortOrdered(entries[1..]);
      var sorted := SortEntries(entries[1..]);
      forall i | 0 <= i < |sorted|
        ensures sorted[i].key != entries[0].key
      {
        assert sorted[i] in entries[1..];
      }
      InsertOrdered(entries[0], sorted);
      assert entries == [entries[0]] + entries[1..];
    }
  }

  lemma {:induction false} OrderedUnique<V>(a: seq<Entry<V>>, b: seq<Entry<V>>)
    requires KeyOrdered(a) && KeyOrdered(b) && SameEntries(a, b)
    ensures a == b
  {
    if a != [] { NonEmptyTogether(a, b); }
    if b != [] { NonEmptyTogether(b, a); }
    if a != [] && b != [] {
      HeadsEqual(a, b);
      TailsSame(a, b);
      TailsSame(b, a);
      OrderedUnique(a[1..], b[1..]);
      assert a == [a[0]] + a[1..] && b == [b[0]] + b[1..];
    }
  }

  lemma NonEmptyTogether<V>(a: seq<Entry<V>>, b: seq<Entry<V>>)
    requires a != [] && forall e :: e in a ==> e in b
    ensures b != []
  {
    assert a[0] in b;
  }

  lemma HeadsEqual<V>(a: seq<Entry<V>>, b: seq<Entry<V>>)
    requires KeyOrdered(a) && KeyOrdered(b) && SameEntries(a, b) && a != [] && b != []
    ensures a[0] == b[0]
  {
    assert a[0] in b && b[0] in a;
    var i :| 0 <= i < |b| && b[i] == a[0];
    var j :| 0 <= j < |a| && a[j] == b[0];
    if i > 0 && j > 0 {
      LessTransitive(a[0].key, a[j].key, b[i].key);
      LessIrreflexive(a[0].key);
    }
  }

  lemma TailsSame<V>(a: seq<Entry<V>>, b: seq<Entry<V>>)
    requires KeyOrdered(a) && SameEntries(a, b) && a != [] && b != [] && a[0] == b[0]
    ensures forall e :: e in a[1..] ==> e in b[1..]
  {
    forall e | e in a[1..]
      ensures e in b[1..]
    {
      var i :| 0 <= i < |a| - 1 && a[1..][i] == e;
      assert a[i + 1] == e && e in a && e in b;
      LessIrreflexive(e.key);
      assert e != a[0];
    }
  }

  /** Two objects' entries in different orders sort to the same sequence. */
  lemma SortUnique<V>(a: seq<Entry<V>>, b: seq<Entry<V>>)
    requires DistinctKeys(a) && DistinctKeys(b) && SameEntries(a, b)
    ensures SortEntries(a) == SortEntries(b)
  {
    SortOrdered(a);
    SortOrdered(b);
    OrderedUnique(SortEntries(a), SortEntries(b));
  }

  // ---- Equal texts, equal values ----

  /** Values that are the same print alike. */
  lemma {:induction false} SamePrintsAlike(a: Json, b: Json)
    requires WellFormed(a) && WellFormed(b) && Same(a, b)
    ensures Stable(a) == Stable(b)
    decreases a
  {
    match (a, b)
    case (Array(x), Array(y)) =>
      forall i | 0 <= i < |x|
        ensures StableItems(x)[i] == StableItems(y)[i]
      {
        SamePrintsAlike(x[i], y[i]);
      }
      assert StableItems(x) == StableItems(y);
    case (Object(x), Object(y)) =>
      forall i, j | 0 <= i < |x| && 0 <= j < |y| && x[i].key == y[j].key
        ensures Stable(x[i].value) == Stable(y[j].value)
      {
        SamePrintsAlike(x[i].value, y[j].value);
      }
      PrintedAmong(x, y);
      PrintedAmong(y, x);
      SortUnique(StableFields(x), StableFields(y));
    case _ =>
  }

  lemma PrintedAmong(x: seq<Entry<Json>>, y: seq<Entry<Json>>)
    requires forall i :: 0 <= i < |x| ==> HasKey(y, x[i].key)
    requires forall i, j :: 0 <= i < |x| && 0 <= j < |y| && x[i].key == y[j].key
               ==> Stable(x[i].value) == Stable(y[j].value)
    ensures forall e :: e in StableFields(x) ==> e in StableFields(y)
  {
  }

  lemma SortedAlike(a: seq<Entry<Json>>, b: seq<Entry<Json>>)
    requires DistinctKeys(a) && DistinctKeys(b) && SortEntries(a) == SortEntries(b)
    ensures forall e :: e in a <==> e in b
  {
    SortOrdered(a);
    SortOrdered(b);
  }

  /** Entries that sort alike once normalised pair up by key, with equal normal forms. */
  lemma SortPairs(x: seq<Entry<Json>>, y: seq<Entry<Json>>)
    requires DistinctKeys(x) && DistinctKeys(y) && SortEntries(NormFields(x)) == SortEntries(NormFields(y))
    ensures forall i :: 0 <= i < |x| ==> HasKey(y, x[i].key)
    ensures forall j :: 0 <= j < |y| ==> HasKey(x, y[j].key)
    ensures forall i, j :: 0 <= i < |x| && 0 <= j < |y| && x[i].key == y[j].key
              ==> Norm(x[i].value) == Norm(y[j].value)
  {
    hide *;
    NormKeepsDistinct(x);
    NormKeepsDistinct(y);
    SortedAlike(NormFields(x), NormFields(y));
    NormedAmong(x, y);
    NormedAmong(y, x);
    forall i, j | 0 <= i < |x| && 0 <= j < |y| && x[i].key == y[j].key
      ensures Norm(x[i].value) == Norm(y[j].value)
    {
      NormedAt(x, y, i, j);
    }
  }

  lemma NormKeepsDistinct(x: seq<Entry<Json>>)
    requires DistinctKeys(x)
    ensures DistinctKeys(NormFields(x))
  {
  }

  lemma NormedAt(x: seq<Entry<Json>>, y: seq<Entry<Json>>, i: nat, j: nat)
    requires forall e :: e in NormFields(x) ==> e in NormFields(y)
    requires DistinctKeys(y) && i < |x| && j < |y| && x[i].key == y[j].key
    ensures Norm(x[i].value) == Norm(y[j].value)
  {
    hide Norm;
    assert NormFields(x)[i] in NormFields(y);
    var l :| 0 <= l < |y| && NormFields(y)[l] == NormFields(x)[i];
    assert y[l].key == y[j].key;
  }

  /** Values with the same normal form are the same. */
  lemma {:induction false} NormalFormDecides(a: Json, b: Json)
    requires WellFormed(a) && WellFormed(b) && Norm(a) == Norm(b)
    ensures Same(a, b)
    decreases a
  {
    match (a, b)
    case (Array(x), Array(y)) =>
      forall i | 0 <= i < |x|
        ensures Same(x[i], y[i])
      {
        assert NormItems(x)[i] == NormItems(y)[i];
        NormalFormDecides(x[i], y[i]);
      }
    case (Object(x), Object(y)) =>
      SortPairs(x, y);
      forall i, j | 0 <= i < |x| && 0 <= j < |y| && x[i].key == y[j].key
        ensures Same(x[i].value, y[j].value)
      {
        NormalFormDecides(x[i].value, y[j].value);
      }
    case _ =>
  }

  lemma NormedAmong(x: seq<Entry<Json>>, y: seq<Entry<Json>>)
    requires forall e :: e in NormFields(x) ==> e in NormFields(y)
    ensures forall i :: 0 <= i < |x| ==> HasKey(y, x[i].key)
  {
    forall i | 0 <= i < |x|
      ensures HasKey(y, x[i].key)
    {
      assert NormFields(x)[i] in NormFields(y);
      var j :| 0 <= j < |y| && NormFields(y)[j] == NormFields(x)[i];
    }
  }

  /**
   The fingerprint text of two values is equal exactly when they are the same JSON value, whatever
   the order of their objects' entries at any depth, and with undefined counting as null.
   */
  lemma StableJsonDecidesEquality(a: Json, b: Json)
    requires WellFormed(a) && WellFormed(b)
    ensures Stable(a) == Stable(b) <==> Same(a, b)
  {
    if Same(a, b) {
      SamePrintsAlike(a, b);
    }
    if Stable(a) == Stable(b) {
      StableReads(a);
      StableReads(b);
      ReadsFollowed(Stable(a), Norm(a), []);
      ReadsFollowed(Stable(b), Norm(b), []);
      NormalFormDecides(a, b);
    }
  }

  /** Two requests get the same fingerprint exactly when they are the same value, short of a hash collision. */
  lemma FingerprintDecidesEquality(a: Json, b: Json, sha256: Text -> Text)
    requires WellFormed(a) && WellFormed(b)
    requires sha256(Stable(a)) == sha256(Stable(b)) ==> Stable(a) == Stable(b)
    ensures sha256(Stable(a)) == sha256(Stable(b)) <==> Same(a, b)
  {
    StableJsonDecidesEquality(a, b);
  }

  // ---- The text in JSON's own characters ----

  /** At every depth keys come one after the other in code unit order, and nothing is undefined. */
  ghost predicate KeysInOrder(v: Json) {
    match v
    case Undefined => false
    case Array(items) => forall i :: 0 <= i < |items| ==> KeysInOrder(items[i])
    case Object(fields) =>
      && (forall p, q :: 0 <= p < q < |fields| ==> ComesBefore(fields[p].key, fields[q].key))
      && (forall p :: 0 <= p < |fields| ==> KeysInOrder(fields[p].value))
    case _ => true
  }

  lemma {:induction false} NormInOrder(v: Json)
    requires WellFormed(v)
    ensures KeysInOrder(Norm(v))
    decreases v
  {
    hide ComesBefore;
    match v
    case Array(items) =>
      forall i | 0 <= i < |items|
        ensures KeysInOrder(NormItems(items)[i])
      {
        NormInOrder(items[i]);
      }
    case Object(fields) =>
      forall i | 0 <= i < |fields|
        ensures KeysInOrder(NormFields(fields)[i].value)
      {
        NormInOrder(fields[i].value);
      }
      SortedInOrder(fields);
    case _ =>
  }

  lemma SortedInOrder(fields: seq<Entry<Json>>)
    requires DistinctKeys(fields)
    requires forall i :: 0 <= i < |fields| ==> KeysInOrder(NormFields(fields)[i].value)
    ensures KeysInOrder(Object(SortEntries(NormFields(fields))))
  {
    NormKeepsDistinct(fields);
    SortOrdered(NormFields(fields));
    hide ComesBefore, Norm, SortEntries, DistinctKeys, Less;
    OrderedKeys(SortEntries(NormFields(fields)));
    OrderedValues(SortEntries(NormFields(fields)), NormFields(fields));
  }

  lemma OrderedKeys(sorted: seq<Entry<Json>>)
    requires KeyOrdered(sorted)
    ensures forall p, q :: 0 <= p < q < |sorted| ==> ComesBefore(sorted[p].key, sorted[q].key)
  {
    hide ComesBefore, Less;
    forall p, q | 0 <= p < q < |sorted|
      ensures ComesBefore(sorted[p].key, sorted[q].key)
    {
      LessIsBefore(sorted[p].key, sorted[q].key);
    }
  }

  lemma OrderedValues(sorted: seq<Entry<Json>>, entries: seq<Entry<Json>>)
    requires SameEntries(sorted, entries)
    requires forall i :: 0 <= i < |entries| ==> KeysInOrder(entries[i].value)
    ensures forall i :: 0 <= i < |sorted| ==> KeysInOrder(sorted[i].value)
  {
    hide KeysInOrder;
    forall i | 0 <= i < |sorted|
      ensures KeysInOrder(sorted[i].value)
    {
      assert sorted[i] in entries;
    }
  }

  /** The text reads back, all of it, as the same value with its keys in order at every depth. */
  lemma StableKeysInOrder(v: Json) returns (read: Json)
    requires WellFormed(v)
    ensures ReadValue(Stable(v)) == Some((read, [])) && KeysInOrder(read)
  {
    read := Norm(v);
    StableReads(v);
    ReadsFollowed(Stable(v), Norm(v), []);
    assert Stable(v) + [] == Stable(v);
    NormInOrder(v);
  }

  lemma AsciiWords()
    ensures Ascii("null") == NULL && Ascii("true") == TRUE && Ascii("false") == FALSE
  {
    assert |Ascii("null")| == 4 && |Ascii("true")| == 4 && |Ascii("false")| == 5;
  }

  lemma AsciiMarks()
    ensures Ascii("[") == [OPEN_BRACKET] && Ascii("]") == [CLOSE_BRACKET] && Ascii(",") == [COMMA]
    ensures Ascii("{") == [OPEN_BRACE] && Ascii("}") == [CLOSE_BRACE] && Ascii(":") == [COLON]
    ensures Ascii("\"") == [QUOTE]
  {
  }

  lemma EmptyOnes()
    ensures Stable(Array([])) == [OPEN_BRACKET, CLOSE_BRACKET] && Stable(Object([])) == [OPEN_BRACE, CLOSE_BRACE]
  {
    var items: seq<Json>, fields: seq<Entry<Json>> := [], [];
    assert Stable(Array(items)) == [OPEN_BRACKET] + Join(StableItems(items)) + [CLOSE_BRACKET];
    assert Stable(Object(fields)) == [OPEN_BRACE] + Join(Members(SortEntries(StableFields(fields)))) + [CLOSE_BRACE];
    assert StableItems(items) == [] && StableFields(fields) == [];
    assert Members(SortEntries(StableFields(fields))) == [];
  }

  lemma TwoItems(a: Json, b: Json)
    ensures Stable(Array([a, b])) == [OPEN_BRACKET] + (Stable(a) + [COMMA] + Stable(b)) + [CLOSE_BRACKET]
  {
    hide Stable;
    TwoParts(Stable(a), Stable(b));
    assert StableItems([a, b]) == [Stable(a), Stable(b)];
    ArrayText([a, b]);
  }

  lemma ArrayText(items: seq<Json>)
    ensures Stable(Array(items)) == [OPEN_BRACKET] + Join(StableItems(items)) + [CLOSE_BRACKET]
  {
  }

  lemma TwoParts(s: Text, t: Text)
    ensures Join([s, t]) == s + [COMMA] + t
  {
    assert [s, t][1..] == [t];
    assert Join([t]) == t;
  }

  lemma OneField(key: Text, a: Json)
    ensures Stable(Object([Entry(key, a)])) == [OPEN_BRACE] + (Quote(key) + [COLON] + Stable(a)) + [CLOSE_BRACE]
  {
    hide Quote;
    var entries := StableFields([Entry(key, a)]);
    assert entries == [Entry(key, Stable(a))];
    assert entries[1..] == [];
    assert SortEntries(entries) == entries;
    var members := Members(entries);
    assert |members| == 1 && members[0] == Quote(key) + [COLON] + Stable(a);
  }

  /** Two fields are printed in code unit order, whichever comes first. */
  lemma TwoFields(k: Text, a: Json, l: Text, b: Json)
    requires ComesBefore(k, l)
    ensures Stable(Object([Entry(k, a), Entry(l, b)])) == Stable(Object([Entry(l, b), Entry(k, a)]))
         == [OPEN_BRACE] + (Quote(k) + [COLON] + Stable(a) + [COMMA] + (Quote(l) + [COLON] + Stable(b))) + [CLOSE_BRACE]
  {
    LessIsBefore(k, l);
    TwoSorted(Entry(k, Stable(a)), Entry(l, Stable(b)));
    hide Quote, Less, SortEntries;
    var one, other := StableFields([Entry(k, a), Entry(l, b)]), StableFields([Entry(l, b), Entry(k, a)]);
    assert one == [Entry(k, Stable(a)), Entry(l, Stable(b))] && other == [Entry(l, Stable(b)), Entry(k, Stable(a))];
    TwoMembers(Entry(k, Stable(a)), Entry(l, Stable(b)));
  }

  lemma TwoSorted(e: Entry<Text>, f: Entry<Text>)
    requires Less(e.key, f.key)
    ensures SortEntries([e, f]) == SortEntries([f, e]) == [e, f]
  {
    LessIrreflexive(e.key);
    if Less(f.key, e.key) { LessTransitive(e.key, f.key, e.key); }
    hide Less;
    OneSorted(e);
    OneSorted(f);
    assert [e, f][1..] == [f] && [f, e][1..] == [e];
    assert [e][1..] == [] && InsertEntry(f, [e]) == [e] + InsertEntry(f, []);
  }

  lemma OneSorted(e: Entry<Text>)
    ensures SortEntries([e]) == [e]
  {
    assert [e][1..] == [];
  }

  lemma TwoMembers(e: Entry<Text>, f: Entry<Text>)
    ensures Join(Members([e, f])) == Quote(e.key) + [COLON] + e.value + [COMMA] + (Quote(f.key) + [COLON] + f.value)
  {
    hide Quote;
    assert [e, f][1..] == [f] && [f][1..] == [];
    assert Members([f][1..]) == [];
    assert Members([f]) == [Quote(f.key) + [COLON] + f.value];
    var parts := Members([e, f]);
    assert parts == [Quote(e.key) + [COLON] + e.value, Quote(f.key) + [COLON] + f.value];
    assert parts[1..] == [Quote(f.key) + [COLON] + f.value];
  }

  /** The words and quotes are those of JSON. */
  lemma JsonWordsAre(k: Text)
    ensures Stable(Undefined) == Stable(Null) == Ascii("null")
    ensures Stable(Bool(true)) == Ascii("true") && Stable(Bool(false)) == Ascii("false")
    ensures Stable(Str(k)) == Ascii("\"") + Escape(k) + Ascii("\"")
  {
    assert Stable(Str(k)) == Quote(k) == [QUOTE] + Escape(k) + [QUOTE];
    assert Stable(Undefined) == Stable(Null) == NULL && Stable(Bool(true)) == TRUE && Stable(Bool(false)) == FALSE;
    hide *;
    AsciiWords();
    AsciiMarks();
  }

  /** So are the brackets and separators, and nothing else is written. */
  lemma JsonMarksAre(k: Text, a: Json, b: Json)
    ensures Stable(Array([])) == Ascii("[") + Ascii("]") && Stable(Object([])) == Ascii("{") + Ascii("}")
    ensures Stable(Array([a, b])) == Ascii("[") + (Stable(a) + Ascii(",") + Stable(b)) + Ascii("]")
    ensures Stable(Object([Entry(k, a)])) == Ascii("{") + (Stable(Str(k)) + Ascii(":") + Stable(a)) + Ascii("}")
  {
    assert Stable(Str(k)) == Quote(k);
    hide *;
    AsciiMarks();
    EmptyOnes();
    TwoItems(a, b);
    OneField(k, a);
  }

  /** Two fields are written with the key first that comes first, in whichever order they were given. */
  lemma JsonFieldsAre(k: Text, a: Json, l: Text, b: Json)
    requires ComesBefore(k, l)
    ensures
      var first, second := Stable(Str(k)) + Ascii(":") + Stable(a), Stable(Str(l)) + Ascii(":") + Stable(b);
      && Stable(Object([Entry(k, a), Entry(l, b)])) == Ascii("{") + (first + Ascii(",") + second) + Ascii("}")
      && Stable(Object([Entry(l, b), Entry(k, a)])) == Ascii("{") + (first + Ascii(",") + second) + Ascii("}")
  {
    assert Stable(Str(k)) == Quote(k) && Stable(Str(l)) == Quote(l);
    hide *;
    AsciiMarks();
    TwoFields(k, a, l, b);
  }
}
