/** The key under which one RCA run caches a tool result: the tool name, a colon and the
    arguments printed with sorted keys. */
module CacheKey {
  import opened PythonText
  import opened Json
  import opened Sorting
  import opened JsonPrinter

  function ToolCacheKey(toolName: Str, args: seq<Member>): Str {
    toolName + ([58] + Print(Canonical(Object(args))))
  }

  // ---------- A lexer that tells quoted text from structure ----------

  datatype Lexer = Outside | AfterColon | Inside | Escaped | Stuck

  function Advance(q: Lexer, c: CodePoint): Lexer {
    match q
    case Outside => if c == 34 then Inside else if c == 92 then Stuck else if c == 58 then AfterColon else Outside
    case AfterColon => if c == 32 then Outside else Stuck
    case Inside => if c == 34 then Outside else if c == 92 then Escaped else Inside
    case Escaped => Inside
    case Stuck => Stuck
  }

  function Scan(q: Lexer, s: Str): Lexer
    decreases s
  {
    if s == [] then q else Scan(Advance(q, s[0]), s[1..])
  }

  lemma {:induction false} ScanConcat(q: Lexer, x: Str, y: Str)
    ensures Scan(q, x + y) == Scan(Scan(q, x), y)
    decreases x
  {
    if x == [] {
      assert x + y == y;
    } else {
      assert (x + y)[1..] == x[1..] + y;
      ScanConcat(Advance(q, x[0]), x[1..], y);
    }
  }

  lemma {:induction false} ScanStuck(s: Str)
    ensures Scan(Stuck, s) == Stuck
  {
    if s != [] {
      ScanStuck(s[1..]);
    }
  }

  /** Text that returns to structure from structure, and that never closes a string it starts inside of. */
  ghost predicate Settles(t: Str) {
    Scan(Outside, t) == Outside && (Scan(Inside, t) == Inside || Scan(Inside, t) == Stuck)
  }

  lemma SettlesConcat(x: Str, y: Str)
    requires Settles(x) && Settles(y)
    ensures Settles(x + y)
  {
    ScanConcat(Outside, x, y);
    ScanConcat(Inside, x, y);
    ScanStuck(y);
  }

  lemma {:induction false} UnitsScanned(units: Str, q: Lexer)
    requires forall i :: 0 <= i < |units| ==> units[i] < 0x10000
    ensures Scan(Inside, EscapeUnits(units)) == Inside
    ensures !q.Inside? && !q.Escaped?
      ==> !Scan(q, EscapeUnits(units)).Inside? && !Scan(q, EscapeUnits(units)).Escaped?
  {
    if units != [] {
      var e := EscapeUnit(units[0]);
      var q' := Scan(q, e);
      UnitScanned(units[0], q);
      ScanConcat(Inside, e, EscapeUnits(units[1..]));
      ScanConcat(q, e, EscapeUnits(units[1..]));
      UnitsScanned(units[1..], q');
    }
  }

  lemma UnitScanned(u: CodePoint, q: Lexer)
    requires u < 0x10000
    ensures Scan(Inside, EscapeUnit(u)) == Inside
    ensures !q.Inside? && !q.Escaped? ==> !Scan(q, EscapeUnit(u)).Inside? && !Scan(q, EscapeUnit(u)).Escaped?
  {
    var e := EscapeUnit(u);
    assert e[0] == 92 || e == [u];
    ScanStuck(e[1..]);
    if |e| == 1 {
      assert e[1..] == [];
    } else if |e| == 2 {
      assert e[1..] == [e[1]] && [e[1]][1..] == [];
      assert Scan(Inside, e) == Scan(Escaped, [e[1]]) == Scan(Inside, []);
    } else if |e| == 6 {
      SixInside(e);
    }
  }

  lemma SixInside(e: Str)
    requires |e| == 6 && e[0] == 92 && forall i :: 1 <= i < 6 ==> e[i] != 34 && e[i] != 92
    ensures Scan(Inside, e) == Inside
  {
    PlainInside(e[2..]);
    assert Scan(Inside, e) == Scan(Escaped, e[1..]);
    assert e[1..][1..] == e[2..];
  }

  lemma {:induction false} PlainInside(s: Str)
    requires forall i :: 0 <= i < |s| ==> s[i] != 34 && s[i] != 92
    ensures Scan(Inside, s) == Inside
  {
    if s != [] {
      PlainInside(s[1..]);
    }
  }

  lemma QuoteSettles(s: Str)
    ensures Settles(Quote(s))
  {
    var e := EscapeUnits(Utf16(s));
    assert Scan(Outside, [34]) == Inside && Scan(Inside, [34]) == Outside;
    UnitsScanned(Utf16(s), Outside);
    forall q ensures Scan(q, Quote(s)) == Scan(Scan(Scan(q, [34]), e), [34]) {
      ScanConcat(q, [34] + e, [34]);
      ScanConcat(q, [34], e);
    }
  }

  /** Text without quotes, backslashes or colons settles. */
  lemma {:induction false} PlainSettles(s: Str)
    requires forall i :: 0 <= i < |s| ==> s[i] != 34 && s[i] != 92 && s[i] != 58
    ensures Settles(s)
  {
    if s != [] {
      PlainSettles(s[1..]);
    }
  }

  lemma {:induction false} PrintSettles(j: Json)
    ensures Settles(Print(j))
    decreases j, 0
  {
    match j
    case String(s) => QuoteSettles(s);
    case Integer(n) =>
      DigitsShape(if n < 0 then -n else n);
      PlainSettles(Decimal(n));
    case Array(items) =>
      if items == [] {
        PlainSettles([93]);
      } else {
        PrintSettles(items[0]);
        ItemsSettle(items[1..]);
        SettlesConcat(Print(items[0]), PrintItems(items[1..]));
      }
      PlainSettles([91]);
      SettlesConcat([91], ArrayBody(items));
    case Object(members) =>
      if members == [] {
        PlainSettles([125]);
      } else {
        MemberSettles(members[0]);
        MembersSettle(members[1..]);
        SettlesConcat(PrintMember(members[0]), PrintMembers(members[1..]));
      }
      PlainSettles([123]);
      SettlesConcat([123], ObjectBody(members));
    case _ => PlainSettles(Print(j));
  }

  lemma {:induction false} ItemsSettle(items: seq<Json>)
    ensures Settles(PrintItems(items))
    decreases items, 1
  {
    if items == [] {
      PlainSettles([93]);
    } else {
      PlainSettles([44, 32]);
      PrintSettles(items[0]);
      ItemsSettle(items[1..]);
      SettlesConcat([44, 32], Print(items[0]));
      SettlesConcat([44, 32] + Print(items[0]), PrintItems(items[1..]));
    }
  }

  lemma {:induction false} MemberSettles(m: Member)
    ensures Settles(PrintMember(m))
    decreases m, 1
  {
    QuoteSettles(m.key);
    assert Settles([58, 32]) by {
      assert [58, 32][1..] == [32] && [32][1..] == [];
    }
    PrintSettles(m.value);
    SettlesConcat(Quote(m.key), [58, 32]);
    SettlesConcat(Quote(m.key) + [58, 32], Print(m.value));
  }

  lemma {:induction false} MembersSettle(members: seq<Member>)
    ensures Settles(PrintMembers(members))
    decreases members, 1
  {
    if members == [] {
      PlainSettles([125]);
    } else {
      PlainSettles([44, 32]);
      MemberSettles(members[0]);
      MembersSettle(members[1..]);
      SettlesConcat([44, 32], PrintMember(members[0]));
      SettlesConcat([44, 32] + PrintMember(members[0]), PrintMembers(members[1..]));
    }
  }

  // ---------- The name ends where the arguments begin ----------

  /** No printed dict ends with a colon followed directly by another printed dict. */
  lemma NoDictAfterColon(x: Str, a: Json, b: Json)
    requires a.Object? && b.Object?
    ensures Print(a) != x + ([58] + Print(b))
  {
    PrintSettles(a);
    PrintSettles(b);
    ScanConcat(Outside, x, [58] + Print(b));
    var q := Advance(Scan(Outside, x), 58);
    assert ([58] + Print(b))[1..] == Print(b);
    assert Scan(Outside, x + ([58] + Print(b))) == Scan(q, Print(b));
    ScanStuck(Print(b));
    ScanStuck(Print(b)[1..]);
    assert Print(b)[0] == 123;
  }

  lemma ArgumentsOverlap(n: Str, r: Str, m: Str, t: Str)
    requires n + ([58] + r) == m + ([58] + t) && |n| < |m|
    ensures r == m[|n| + 1..] + ([58] + t)
  {
    assert (n + ([58] + r))[|n| + 1..] == r;
    assert (m + ([58] + t))[|n| + 1..] == m[|n| + 1..] + ([58] + t);
  }

  lemma NameNoShorter(n: Str, a: Json, m: Str, b: Json)
    requires a.Object? && b.Object? && n + ([58] + Print(a)) == m + ([58] + Print(b))
    ensures |m| <= |n|
  {
    if |n| < |m| {
      ArgumentsOverlap(n, Print(a), m, Print(b));
      NoDictAfterColon(m[|n| + 1..], a, b);
    }
  }

  /** The key determines the tool name and the key-sorted arguments up to UTF-16 encoding, and
      nothing else: this holds for every name, also one with colons and braces, and all arguments. */
  lemma KeyExact(n: Str, a: seq<Member>, m: Str, b: seq<Member>)
    ensures ToolCacheKey(n, a) == ToolCacheKey(m, b)
      <==> n == m && Encoded(Canonical(Object(a))) == Encoded(Canonical(Object(b)))
  {
    var x, y := Canonical(Object(a)), Canonical(Object(b));
    PrintedAlikeIffEncodedAlike(x, y);
    if ToolCacheKey(n, a) == ToolCacheKey(m, b) {
      NameNoShorter(n, x, m, y);
      NameNoShorter(m, y, n, x);
      Cancel(n, [58] + Print(x), m, [58] + Print(y));
      Cancel([58], Print(x), [58], Print(y));
    }
  }

  // ---------- When UTF-16 encoding loses nothing ----------

  /** No high surrogate stands directly before a low surrogate. `json.loads` joins two escaped ones,
      but leaves an escaped high one before a raw low one as two code points. */
  ghost predicate NoSplitPair(s: Str) {
    forall i :: 0 <= i < |s| - 1 ==> !(IsHighSurrogate(s[i]) && IsLowSurrogate(s[i + 1]))
  }

  ghost predicate NoSplitPairs(j: Json)
    decreases j
  {
    match j
    case String(s) => NoSplitPair(s)
    case Array(items) => forall i :: 0 <= i < |items| ==> NoSplitPairs(items[i])
    case Object(members) =>
      forall i :: 0 <= i < |members| ==> NoSplitPair(members[i].key) && NoSplitPairs(members[i].value)
    case _ => true
  }

  lemma HalvesDetermine(c: CodePoint, d: CodePoint)
    requires c >= 0x10000 && d >= 0x10000 && HighHalf(c) == HighHalf(d) && LowHalf(c) == LowHalf(d)
    ensures c == d
  {
    var x, y := c - 0x10000, d - 0x10000;
    assert x == x / 0x400 * 0x400 + x % 0x400;
    assert y == y / 0x400 * 0x400 + y % 0x400;
  }

  lemma NotLowAfterHigh(s: Str)
    requires NoSplitPair(s) && s != [] && IsHighSurrogate(s[0])
    ensures Utf16(s[1..]) == [] || !IsLowSurrogate(Utf16(s[1..])[0])
  {
    var t := s[1..];
    if t != [] {
      assert !(IsHighSurrogate(s[0]) && IsLowSurrogate(s[0 + 1]));
      assert t[0] == s[1];
    }
  }

  lemma {:induction false} Utf16Determines(s: Str, t: Str)
    requires NoSplitPair(s) && NoSplitPair(t) && Utf16(s) == Utf16(t)
    ensures s == t
  {
    var u, v := Utf16(s), Utf16(t);
    if s != [] && t != [] {
      assert u[0] == v[0];
      if s[0] < 0x10000 && t[0] < 0x10000 {
        assert u[1..] == Utf16(s[1..]) && v[1..] == Utf16(t[1..]);
      } else if s[0] < 0x10000 {
        assert u[1..] == Utf16(s[1..]) && v[1] == LowHalf(t[0]);
        NotLowAfterHigh(s);
      } else if t[0] < 0x10000 {
        assert v[1..] == Utf16(t[1..]) && u[1] == LowHalf(s[0]);
        NotLowAfterHigh(t);
      } else {
        assert u[1] == v[1];
        HalvesDetermine(s[0], t[0]);
        assert u[2..] == Utf16(s[1..]) && v[2..] == Utf16(t[1..]);
      }
      Utf16Determines(s[1..], t[1..]);
      assert s == [s[0]] + s[1..] && t == [t[0]] + t[1..];
    }
  }

  lemma {:induction false} EncodedDetermines(a: Json, b: Json)
    requires NoSplitPairs(a) && NoSplitPairs(b) && Encoded(a) == Encoded(b)
    ensures a == b
    decreases a
  {
    match a
    case String(s) => Utf16Determines(s, b.s);
    case Array(items) =>
      assert |EncodedItems(items)| == |EncodedItems(b.items)|;
      forall i | 0 <= i < |items| ensures items[i] == b.items[i] {
        assert EncodedItems(items)[i] == EncodedItems(b.items)[i];
        EncodedDetermines(items[i], b.items[i]);
      }
    case Object(members) =>
      assert |EncodedMembers(members)| == |EncodedMembers(b.members)|;
      forall i | 0 <= i < |members| ensures members[i] == b.members[i] {
        assert EncodedMembers(members)[i] == EncodedMembers(b.members)[i];
        Utf16Determines(members[i].key, b.members[i].key);
        EncodedDetermines(members[i].value, b.members[i].value);
      }
    case _ =>
  }

  lemma {:induction false} CanonicalKeepsPairs(j: Json)
    requires DistinctKeys(j) && NoSplitPairs(j)
    ensures NoSplitPairs(Canonical(j))
    decreases j
  {
    match j
    case Array(items) =>
      forall i | 0 <= i < |items| ensures NoSplitPairs(Canonical(items[i])) {
        CanonicalKeepsPairs(items[i]);
      }
    case Object(members) =>
      forall i | 0 <= i < |members| ensures NoSplitPairs(Canonical(members[i].value)) {
        CanonicalKeepsPairs(members[i].value);
      }
      var c := CanonicalMembers(members);
      SortIsStrict(c);
      forall i | 0 <= i < |c|
        ensures NoSplitPair(Canonical(j).members[i].key) && NoSplitPairs(Canonical(j).members[i].value)
      {
        assert Canonical(j).members[i] in c;
      }
    case _ =>
  }

  /** Two calls get the same key iff they name the same tool and their arguments are equal
      ignoring key order. */
  lemma KeyInjectiveUpToKeyOrder(n: Str, a: seq<Member>, m: Str, b: seq<Member>)
    requires DistinctKeys(Object(a)) && DistinctKeys(Object(b))
    requires NoSplitPairs(Object(a)) && NoSplitPairs(Object(b))
    ensures ToolCacheKey(n, a) == ToolCacheKey(m, b) <==> n == m && MeaningOf(Object(a)) == MeaningOf(Object(b))
  {
    KeyExact(n, a, m, b);
    SameMeaningIffSameCanonical(Object(a), Object(b));
    CanonicalKeepsPairs(Object(a));
    CanonicalKeepsPairs(Object(b));
    if Encoded(Canonical(Object(a))) == Encoded(Canonical(Object(b))) {
      EncodedDetermines(Canonical(Object(a)), Canonical(Object(b)));
    }
  }

  // ---------- Where it fails ----------

  /** The arguments `{"q": s}`. */
  function Query(s: Str): seq<Member> {
    [Member([113], String(s))]
  }

  /** U+1F600 and the two surrogates that encode it make different arguments with one key. */
  lemma SplitPairCollides(n: Str)
    ensures DistinctKeys(Object(Query([0x1F600]))) && DistinctKeys(Object(Query([0xD83D, 0xDE00])))
    ensures MeaningOf(Object(Query([0x1F600]))) != MeaningOf(Object(Query([0xD83D, 0xDE00])))
    ensures ToolCacheKey(n, Query([0x1F600])) == ToolCacheKey(n, Query([0xD83D, 0xDE00]))
  {
    var s, t: Str := [0x1F600], [0xD83D, 0xDE00];
    assert HighHalf(s[0]) == t[0] && LowHalf(s[0]) == t[1];
    SplitSameUnits(s[0], []);
    assert [s[0]] + [] == s && [t[0], t[1]] + [] == t;
    QueryFacts(s);
    QueryFacts(t);
    assert s != t;
    KeyExact(n, Query(s), n, Query(t));
  }

  lemma QueryFacts(s: Str)
    ensures DistinctKeys(Object(Query(s)))
    ensures Encoded(Canonical(Object(Query(s)))) == Object([Member([113], String(Utf16(s)))])
    ensures MeaningOf(Object(Query(s))).ObjectMeaning?
    ensures [113] in MeaningOf(Object(Query(s))).entries
    ensures MeaningOf(Object(Query(s))).entries[[113]] == StringMeaning(s)
  {
    var ms := Query(s);
    assert DistinctKeys(String(s));
    assert CanonicalMembers(ms) == ms by {
      assert Canonical(String(s)) == String(s);
    }
    assert ms[1..] == [] && ms[..0] == [];
    assert Sort(KeyLeq, ms) == ms;
    assert Utf16([113]) == [113] by {
      var k: Str := [113];
      assert k[1..] == [];
    }
    assert EncodedMembers(ms) == [Member([113], String(Utf16(s)))] by {
      assert Encoded(String(s)) == String(Utf16(s));
    }
    assert EntriesOf(ms) == map[[113] := MeaningOf(String(s))];
  }

  // ---------- Exactly which arguments share their key ----------

  /** A code point beyond the basic plane, or a split pair: another string has the same code units. */
  ghost predicate HasTwin(s: Str) {
    (exists i :: 0 <= i < |s| && s[i] >= 0x10000) || !NoSplitPair(s)
  }

  lemma Twin(s: Str) returns (t: Str)
    requires HasTwin(s)
    ensures t != s && Utf16(t) == Utf16(s)
  {
    if i :| 0 <= i < |s| && s[i] >= 0x10000 {
      t := SplitAt(s, i);
    } else {
      var i :| 0 <= i < |s| - 1 && IsHighSurrogate(s[i]) && IsLowSurrogate(s[i + 1]);
      t := JoinAt(s, i);
    }
  }

  lemma TwinsAlike(s: Str, t: Str)
    requires t != s && Utf16(t) == Utf16(s)
    ensures HasTwin(s)
  {
    if !HasTwin(s) {
      PlainDetermined(s, t);
    }
  }

  ghost predicate Before(a: Str, b: Str) {
    LexLeq(a, b) && a != b
  }

  lemma BeforeTransitive(a: Str, b: Str, c: Str)
    requires LexLeq(a, b) && LexLeq(b, c) && (a != b || b != c)
    ensures Before(a, c)
  {
    LexTransitive(a, b, c);
    if a == c {
      LexAntisymmetric(a, b);
    }
  }

  /** `t` would keep the place of key `i` among its neighbours. */
  ghost predicate FitsAt(ms: seq<Member>, i: nat, t: Str)
    requires i < |ms|
  {
    (i > 0 ==> Before(ms[i - 1].key, t)) && (i + 1 < |ms| ==> Before(t, ms[i + 1].key))
  }

  ghost predicate Respells(ms: seq<Member>, i: nat, t: Str)
    requires i < |ms|
  {
    t != ms[i].key && Utf16(t) == Utf16(ms[i].key) && FitsAt(ms, i, t)
  }

  ghost predicate KeyRespellable(ms: seq<Member>, i: nat)
    requires i < |ms|
  {
    exists t: Str :: Respells(ms, i, t)
  }

  /** In a key-sorted tree, some string value has a twin, or some key has one that keeps its place. */
  ghost predicate Respellable(j: Json)
    decreases j
  {
    match j
    case String(s) => HasTwin(s)
    case Array(items) => exists i :: 0 <= i < |items| && Respellable(items[i])
    case Object(ms) => exists i :: 0 <= i < |ms| && (Respellable(ms[i].value) || KeyRespellable(ms, i))
    case _ => false
  }

  /** Every dict of the tree is sorted by distinct keys. */
  ghost predicate Ordered(j: Json)
    decreases j
  {
    match j
    case Array(items) => forall i :: 0 <= i < |items| ==> Ordered(items[i])
    case Object(ms) => StrictlyByKey(ms) && forall i :: 0 <= i < |ms| ==> Ordered(ms[i].value)
    case _ => true
  }

  lemma {:induction false} CanonicalOrdered(j: Json)
    requires DistinctKeys(j)
    ensures Ordered(Canonical(j))
    decreases j
  {
    match j
    case Array(items) =>
      forall i | 0 <= i < |items| ensures Ordered(Canonical(items[i])) {
        CanonicalOrdered(items[i]);
      }
    case Object(ms) =>
      var c := CanonicalMembers(ms);
      SortIsStrict(c);
      forall i | 0 <= i < |c| ensures Ordered(Sort(KeyLeq, c)[i].value) {
        var p := OriginOf(ms, i);
        CanonicalOrdered(ms[p].value);
      }
    case _ =>
  }

  /** Which member a sorted member comes from. */
  lemma OriginOf(ms: seq<Member>, i: nat) returns (p: nat)
    requires KeysDistinct(ms) && i < |ms|
    ensures p < |ms| && |Sort(KeyLeq, CanonicalMembers(ms))| == |ms|
    ensures Sort(KeyLeq, CanonicalMembers(ms))[i] == Member(ms[p].key, Canonical(ms[p].value))
  {
    var c := CanonicalMembers(ms);
    SortIsStrict(c);
    assert Sort(KeyLeq, c)[i] in c;
    p :| 0 <= p < |c| && c[p] == Sort(KeyLeq, c)[i];
  }

  lemma PlaceOf(ms: seq<Member>, p: nat) returns (i: nat)
    requires KeysDistinct(ms) && p < |ms|
    ensures i < |ms| && |Sort(KeyLeq, CanonicalMembers(ms))| == |ms|
    ensures Sort(KeyLeq, CanonicalMembers(ms))[i] == Member(ms[p].key, Canonical(ms[p].value))
  {
    var c := CanonicalMembers(ms);
    SortIsStrict(c);
    assert c[p] in Sort(KeyLeq, c);
    i :| 0 <= i < |c| && Sort(KeyLeq, c)[i] == c[p];
  }

  lemma {:induction false} OrderedIsCanonical(j: Json)
    requires Ordered(j)
    ensures Canonical(j) == j && DistinctKeys(j)
    decreases j
  {
    match j
    case Array(items) =>
      forall i | 0 <= i < |items| ensures Canonical(items[i]) == items[i] && DistinctKeys(items[i]) {
        OrderedIsCanonical(items[i]);
      }
      assert CanonicalItems(items) == items;
    case Object(ms) =>
      forall i | 0 <= i < |ms| ensures Canonical(ms[i].value) == ms[i].value && DistinctKeys(ms[i].value) {
        OrderedIsCanonical(ms[i].value);
      }
      assert CanonicalMembers(ms) == ms;
      SortOfSorted(KeyLeq, ms);
    case _ =>
  }

  /** Respelling one string of a sorted tree gives another sorted tree that is encoded alike. */
  lemma {:induction false} Respelled(j: Json) returns (k: Json)
    requires Ordered(j) && Respellable(j)
    ensures Ordered(k) && k != j && Encoded(k) == Encoded(j)
    decreases j
  {
    hide StrictlyByKey, HasTwin, Respells;
    match j
    case String(s) =>
      var t := Twin(s);
      k := String(t);
    case Array(items) =>
      var i :| 0 <= i < |items| && Respellable(items[i]);
      var item := Respelled(items[i]);
      k := WithItem(items, i, item);
    case Object(ms) =>
      var i :| 0 <= i < |ms| && (Respellable(ms[i].value) || KeyRespellable(ms, i));
      if Respellable(ms[i].value) {
        var value := Respelled(ms[i].value);
        SameKeySorted(ms, i, value);
        k := WithMember(ms, i, Member(ms[i].key, value));
      } else {
        var t :| Respells(ms, i, t);
        RespellsParts(ms, i, t);
        RespelledSorted(ms, i, t);
        k := WithMember(ms, i, Member(t, ms[i].value));
      }
  }

  lemma WithItem(items: seq<Json>, i: nat, item: Json) returns (k: Json)
    requires i < |items| && item != items[i] && Ordered(Array(items)) && Ordered(item)
    requires Encoded(item) == Encoded(items[i])
    ensures Ordered(k) && k != Array(items) && Encoded(k) == Encoded(Array(items))
  {
    var others := items[i := item];
    k := Array(others);
    assert others[i] == item;
    assert EncodedItems(others) == EncodedItems(items);
  }

  lemma WithMember(ms: seq<Member>, i: nat, m: Member) returns (k: Json)
    requires i < |ms| && m != ms[i] && Ordered(Object(ms)) && Ordered(m.value)
    requires Utf16(m.key) == Utf16(ms[i].key) && Encoded(m.value) == Encoded(ms[i].value)
    requires StrictlyByKey(ms[i := m])
    ensures Ordered(k) && k != Object(ms) && Encoded(k) == Encoded(Object(ms))
  {
    hide StrictlyByKey, Utf16;
    var ns := ms[i := m];
    k := Object(ns);
    assert ns[i] == m;
    SameEncodedMembers(ms, ns);
  }

  lemma SameEncodedMembers(ms: seq<Member>, ns: seq<Member>)
    requires |ms| == |ns|
    requires forall k :: 0 <= k < |ms| ==>
      Utf16(ns[k].key) == Utf16(ms[k].key) && Encoded(ns[k].value) == Encoded(ms[k].value)
    ensures EncodedMembers(ns) == EncodedMembers(ms)
  {
    hide Utf16, Encoded;
  }

  lemma SameKeySorted(ms: seq<Member>, i: nat, value: Json)
    requires StrictlyByKey(ms) && i < |ms|
    ensures StrictlyByKey(ms[i := Member(ms[i].key, value)])
  {
    hide LexLeq;
  }

  lemma RespellsParts(ms: seq<Member>, i: nat, t: Str)
    requires i < |ms| && Respells(ms, i, t)
    ensures t != ms[i].key && Utf16(t) == Utf16(ms[i].key) && FitsAt(ms, i, t)
  {
  }

  lemma RespelledSorted(ms: seq<Member>, i: nat, t: Str)
    requires StrictlyByKey(ms) && i < |ms| && FitsAt(ms, i, t)
    ensures StrictlyByKey(ms[i := Member(t, ms[i].value)])
  {
    hide LexLeq;
    var ns := ms[i := Member(t, ms[i].value)];
    forall p, q | 0 <= p < q < |ns| ensures Before(ns[p].key, ns[q].key) {
      assert p < i - 1 ==> KeyLeq(ms[p], ms[i - 1]);
      assert q > i + 1 ==> KeyLeq(ms[i + 1], ms[q]);
      assert KeyLeq(ms[p], ms[q]) && ms[p].key != ms[q].key;
      if q == i && p < i - 1 {
        BeforeTransitive(ms[p].key, ms[i - 1].key, t);
      } else if p == i && q > i + 1 {
        BeforeTransitive(t, ms[i + 1].key, ms[q].key);
      }
    }
  }

  /** If a key comes earlier than its twin in another sorted listing, some key respells in its place. */
  lemma {:induction false} UpFits(ms: seq<Member>, ns: seq<Member>, i: nat) returns (p: nat)
    requires StrictlyByKey(ms) && StrictlyByKey(ns) && |ms| == |ns|
    requires forall k :: 0 <= k < |ms| ==> Utf16(ms[k].key) == Utf16(ns[k].key)
    requires i < |ms| && Before(ms[i].key, ns[i].key)
    ensures p < |ms| && KeyRespellable(ms, p)
    decreases |ms| - i
  {
    hide LexLeq;
    if i + 1 < |ms| && !Before(ns[i].key, ms[i + 1].key) {
      LexTotal(ns[i].key, ms[i + 1].key);
      assert KeyLeq(ns[i], ns[i + 1]) && ns[i].key != ns[i + 1].key;
      BeforeTransitive(ms[i + 1].key, ns[i].key, ns[i + 1].key);
      p := UpFits(ms, ns, i + 1);
    } else {
      p := i;
      if i > 0 {
        assert KeyLeq(ms[i - 1], ms[i]);
        BeforeTransitive(ms[i - 1].key, ms[i].key, ns[i].key);
      }
      assert Respells(ms, i, ns[i].key);
    }
  }

  lemma {:induction false} DownFits(ms: seq<Member>, ns: seq<Member>, i: nat) returns (p: nat)
    requires StrictlyByKey(ms) && StrictlyByKey(ns) && |ms| == |ns|
    requires forall k :: 0 <= k < |ms| ==> Utf16(ms[k].key) == Utf16(ns[k].key)
    requires i < |ms| && Before(ns[i].key, ms[i].key)
    ensures p < |ms| && KeyRespellable(ms, p)
    decreases i
  {
    hide LexLeq;
    if i > 0 && !Before(ms[i - 1].key, ns[i].key) {
      LexTotal(ms[i - 1].key, ns[i].key);
      assert KeyLeq(ns[i - 1], ns[i]) && ns[i - 1].key != ns[i].key;
      BeforeTransitive(ns[i - 1].key, ns[i].key, ms[i - 1].key);
      p := DownFits(ms, ns, i - 1);
    } else {
      p := i;
      if i + 1 < |ms| {
        assert KeyLeq(ms[i], ms[i + 1]);
        BeforeTransitive(ns[i].key, ms[i].key, ms[i + 1].key);
      }
      assert Respells(ms, i, ns[i].key);
    }
  }

  lemma KeysRespell(ms: seq<Member>, ns: seq<Member>, i: nat)
    requires StrictlyByKey(ms) && StrictlyByKey(ns) && |ms| == |ns|
    requires forall k :: 0 <= k < |ms| ==> Utf16(ms[k].key) == Utf16(ns[k].key)
    requires i < |ms| && ms[i].key != ns[i].key
    ensures exists p :: 0 <= p < |ms| && KeyRespellable(ms, p)
  {
    LexTotal(ms[i].key, ns[i].key);
    if Before(ms[i].key, ns[i].key) {
      var p := UpFits(ms, ns, i);
    } else {
      var p := DownFits(ms, ns, i);
    }
  }

  /** Two sorted trees that are encoded alike differ only by respelling. */
  lemma {:induction false} AlikeIsRespelled(x: Json, y: Json)
    requires Ordered(x) && Ordered(y) && Encoded(x) == Encoded(y) && x != y
    ensures Respellable(x)
    decreases x
  {
    hide StrictlyByKey, HasTwin, KeyRespellable;
    match x
    case String(s) => TwinsAlike(s, y.s);
    case Array(items) =>
      assert |EncodedItems(items)| == |EncodedItems(y.items)|;
      var i :| 0 <= i < |items| && items[i] != y.items[i];
      assert EncodedItems(items)[i] == EncodedItems(y.items)[i];
      AlikeIsRespelled(items[i], y.items[i]);
    case Object(ms) =>
      var ns := y.members;
      assert |EncodedMembers(ms)| == |EncodedMembers(ns)|;
      forall k | 0 <= k < |ms|
        ensures Utf16(ms[k].key) == Utf16(ns[k].key) && Encoded(ms[k].value) == Encoded(ns[k].value)
      {
        assert EncodedMembers(ms)[k] == EncodedMembers(ns)[k];
      }
      var i :| 0 <= i < |ms| && ms[i] != ns[i];
      if ms[i].value != ns[i].value {
        AlikeIsRespelled(ms[i].value, ns[i].value);
      } else {
        LexTotal(ms[i].key, ns[i].key);
        KeysRespell(ms, ns, i);
      }
    case _ =>
  }

  /** Other arguments whose cached result a call with arguments `a` would be served. */
  ghost predicate Collides(n: Str, a: seq<Member>, b: seq<Member>) {
    && DistinctKeys(Object(b)) && MeaningOf(Object(b)) != MeaningOf(Object(a))
    && ToolCacheKey(n, b) == ToolCacheKey(n, a)
  }

  /** For every name and all arguments: other arguments have the same key iff, in the key-sorted
      arguments, some string value has a twin or some key has one that keeps its place. */
  lemma SharedKeyExactly(n: Str, a: seq<Member>)
    requires DistinctKeys(Object(a))
    ensures (exists b :: Collides(n, a, b)) <==> Respellable(Canonical(Object(a)))
  {
    hide DistinctKeys, Canonical, MeaningOf, Encoded, Respellable, Ordered, ToolCacheKey;
    var x := Canonical(Object(a));
    CanonicalOrdered(Object(a));
    if Respellable(x) {
      var y := Respelled(x);
      ObjectShape(a, y);
      OrderedIsCanonical(y);
      SameMeaningIffSameCanonical(Object(a), y);
      KeyExact(n, a, n, y.members);
      assert Collides(n, a, y.members);
    }
    forall b | Collides(n, a, b) ensures Respellable(x) {
      CanonicalOrdered(Object(b));
      SameMeaningIffSameCanonical(Object(a), Object(b));
      KeyExact(n, a, n, b);
      AlikeIsRespelled(x, Canonical(Object(b)));
    }
  }

  lemma ObjectShape(a: seq<Member>, y: Json)
    requires Encoded(y) == Encoded(Canonical(Object(a)))
    ensures y.Object? && Object(y.members) == y
  {
  }

  // ---------- What a caller can check without sorting ----------

  /** Some string value, at any depth, has a twin. */
  ghost predicate TwinValue(j: Json)
    decreases j
  {
    match j
    case String(s) => HasTwin(s)
    case Array(items) => exists i :: 0 <= i < |items| && TwinValue(items[i])
    case Object(ms) => exists i :: 0 <= i < |ms| && TwinValue(ms[i].value)
    case _ => false
  }

  /** No dict key, at any depth, has a twin. */
  ghost predicate PlainKeys(j: Json)
    decreases j
  {
    match j
    case Array(items) => forall i :: 0 <= i < |items| ==> PlainKeys(items[i])
    case Object(ms) => forall i :: 0 <= i < |ms| ==> !HasTwin(ms[i].key) && PlainKeys(ms[i].value)
    case _ => true
  }

  lemma {:induction false} TwinValueRespellable(j: Json)
    requires DistinctKeys(j) && TwinValue(j)
    ensures Respellable(Canonical(j))
    decreases j
  {
    match j
    case String(s) =>
    case Array(items) =>
      var i :| 0 <= i < |items| && TwinValue(items[i]);
      TwinValueRespellable(items[i]);
      assert Respellable(CanonicalItems(items)[i]);
    case Object(ms) =>
      var p :| 0 <= p < |ms| && TwinValue(ms[p].value);
      TwinValueRespellable(ms[p].value);
      var i := PlaceOf(ms, p);
      assert Respellable(Sort(KeyLeq, CanonicalMembers(ms))[i].value);
  }

  lemma {:induction false} RespellableTwinValue(j: Json)
    requires DistinctKeys(j) && PlainKeys(j) && Respellable(Canonical(j))
    ensures TwinValue(j)
    decreases j
  {
    match j
    case String(s) =>
    case Array(items) =>
      var i :| 0 <= i < |items| && Respellable(CanonicalItems(items)[i]);
      RespellableTwinValue(items[i]);
    case Object(ms) =>
      var s := Sort(KeyLeq, CanonicalMembers(ms));
      var i :| 0 <= i < |s| && (Respellable(s[i].value) || KeyRespellable(s, i));
      SortIsStrict(CanonicalMembers(ms));
      var p := OriginOf(ms, i);
      if Respellable(s[i].value) {
        RespellableTwinValue(ms[p].value);
      } else {
        var t :| Respells(s, i, t);
        TwinsAlike(s[i].key, t);
      }
  }

  /** A twin among the string values always makes other arguments share the key. */
  lemma TwinValueCollides(n: Str, a: seq<Member>)
    requires DistinctKeys(Object(a)) && TwinValue(Object(a))
    ensures exists b :: Collides(n, a, b)
  {
    TwinValueRespellable(Object(a));
    SharedKeyExactly(n, a);
  }

  /** Where no key has a twin, that is exactly when it happens. */
  lemma SharedKeyWithPlainKeys(n: Str, a: seq<Member>)
    requires DistinctKeys(Object(a)) && PlainKeys(Object(a))
    ensures (exists b :: Collides(n, a, b)) <==> TwinValue(Object(a))
  {
    hide Collides;
    SharedKeyExactly(n, a);
    if TwinValue(Object(a)) {
      TwinValueRespellable(Object(a));
    } else if Respellable(Canonical(Object(a))) {
      RespellableTwinValue(Object(a));
    }
  }

  /** If no string of one call's arguments has a twin, the key identifies the call among all others. */
  lemma KeyIdentifiesPlainCall(n: Str, a: seq<Member>, m: Str, b: seq<Member>)
    requires DistinctKeys(Object(a)) && DistinctKeys(Object(b))
    requires PlainKeys(Object(a)) && !TwinValue(Object(a))
    ensures ToolCacheKey(n, a) == ToolCacheKey(m, b) <==> n == m && MeaningOf(Object(a)) == MeaningOf(Object(b))
  {
    hide DistinctKeys, MeaningOf, ToolCacheKey, PlainKeys, TwinValue;
    KeyExact(n, a, m, b);
    SameMeaningIffSameCanonical(Object(a), Object(b));
    SharedKeyWithPlainKeys(n, a);
    assert !Collides(n, a, b);
  }

  lemma SplitAt(s: Str, i: nat) returns (t: Str)
    requires i < |s| && s[i] >= 0x10000
    ensures t != s && Utf16(t) == Utf16(s)
  {
    var tail: Str := s[i + 1..];
    var one: Str, two: Str := [s[i]] + tail, [HighHalf(s[i]), LowHalf(s[i])] + tail;
    t := s[..i] + two;
    assert s == s[..i] + one;
    assert |t| == |s| + 1;
    Utf16Concat(s[..i], one);
    Utf16Concat(s[..i], two);
    SplitSameUnits(s[i], tail);
  }

  lemma JoinAt(s: Str, i: nat) returns (t: Str)
    requires i + 1 < |s| && IsHighSurrogate(s[i]) && IsLowSurrogate(s[i + 1])
    ensures t != s && Utf16(t) == Utf16(s)
  {
    var c: CodePoint := 0x10000 + (s[i] - 0xD800) * 0x400 + (s[i + 1] - 0xDC00);
    assert HighHalf(c) == s[i] && LowHalf(c) == s[i + 1];
    var tail: Str := s[i + 2..];
    var one: Str, two: Str := [c] + tail, [s[i], s[i + 1]] + tail;
    t := s[..i] + one;
    assert s == s[..i] + two;
    assert |t| == |s| - 1;
    Utf16Concat(s[..i], one);
    Utf16Concat(s[..i], two);
    SplitSameUnits(c, tail);
  }

  lemma {:induction false} Utf16Concat(x: Str, y: Str)
    ensures Utf16(x + y) == Utf16(x) + Utf16(y)
  {
    if x == [] {
      assert x + y == y;
    } else {
      assert (x + y)[1..] == x[1..] + y;
      Utf16Concat(x[1..], y);
    }
  }

  lemma SplitSameUnits(c: CodePoint, rest: Str)
    requires c >= 0x10000
    ensures Utf16([c] + rest) == Utf16([HighHalf(c), LowHalf(c)] + rest)
  {
    var p: Str := [HighHalf(c), LowHalf(c)] + rest;
    assert ([c] + rest)[1..] == rest;
    assert p[1..] == [LowHalf(c)] + rest;
    assert p[1..][1..] == rest;
  }

  /** Units below the surrogates' reach come from themselves only. */
  lemma {:induction false} PlainDetermined(s: Str, t: Str)
    requires forall i :: 0 <= i < |s| ==> s[i] < 0x10000
    requires NoSplitPair(s) && Utf16(t) == Utf16(s)
    ensures t == s
  {
    var u, v := Utf16(s), Utf16(t);
    if s != [] && t != [] {
      assert u[0] == v[0];
      assert u[1..] == Utf16(s[1..]);
      if t[0] >= 0x10000 {
        assert u[1..][0] == LowHalf(t[0]);
        NotLowAfterHigh(s);
      }
      assert v[1..] == Utf16(t[1..]);
      PlainDetermined(s[1..], t[1..]);
      assert s == [s[0]] + s[1..] && t == [t[0]] + t[1..];
    }
  }

  /** The key is the tool's name, a colon, and the arguments printed with sorted keys. */
  lemma KeyFormat(toolName: Str, args: seq<Member>)
    ensures ToolCacheKey(toolName, args) == toolName + (Text(":") + Print(Canonical(Object(args))))
  {
    assert Text(":") == [58];
  }
}
