/** `json.dumps` with its default separators and ASCII-only output (section 7 of RFC 8259 for
    the string escapes), and what its text determines. */
module JsonPrinter {
  import opened PythonText
  import opened Json

  // ---------- Strings ----------

  predicate IsHighSurrogate(c: CodePoint) { 0xD800 <= c <= 0xDBFF }

  predicate IsLowSurrogate(c: CodePoint) { 0xDC00 <= c <= 0xDFFF }

  /** The UTF-16 code units that the ASCII escapes spell out. */
  function Utf16(s: Str): (units: Str)
    ensures forall i :: 0 <= i < |units| ==> units[i] < 0x10000
  {
    if s == [] then []
    else if s[0] < 0x10000 then [s[0]] + Utf16(s[1..])
    else [HighHalf(s[0]), LowHalf(s[0])] + Utf16(s[1..])
  }

  function HighHalf(c: CodePoint): CodePoint
    requires c >= 0x10000
  {
    0xD800 + (c - 0x10000) / 0x400
  }

  function LowHalf(c: CodePoint): CodePoint
    requires c >= 0x10000
  {
    0xDC00 + (c - 0x10000) % 0x400
  }

  function HexDigit(d: int): CodePoint
    requires 0 <= d < 16
  {
    if d < 10 then 48 + d else 87 + d
  }

  /** `\"`, `\\`, the five short control escapes, printable ASCII as itself, `\uXXXX` otherwise. */
  function EscapeUnit(u: CodePoint): Str
    requires u < 0x10000
  {
    if u == 34 then [92, 34]
    else if u == 92 then [92, 92]
    else if u == 10 then [92, 110]
    else if u == 13 then [92, 114]
    else if u == 9 then [92, 116]
    else if u == 12 then [92, 102]
    else if u == 8 then [92, 98]
    else if 32 <= u <= 126 then [u]
    else [92, 117, HexDigit(u / 4096), HexDigit(u / 256 % 16), HexDigit(u / 16 % 16), HexDigit(u % 16)]
  }

  function EscapeUnits(units: Str): Str
    requires forall i :: 0 <= i < |units| ==> units[i] < 0x10000
  {
    if units == [] then [] else EscapeUnit(units[0]) + EscapeUnits(units[1..])
  }

  function Quote(s: Str): Str {
    [34] + EscapeUnits(Utf16(s)) + [34]
  }

  // ---------- Values ----------

  function Digits(n: nat): Str {
    if n < 10 then [48 + n] else Digits(n / 10) + [48 + n % 10]
  }

  function Decimal(n: int): Str {
    if n < 0 then [45] + Digits(-n) else Digits(n)
  }

  /** Prints the members of every dict in the order they are stored. */
  function Print(j: Json): Str
    decreases j, 0
  {
    match j
    case Null => Text("null")
    case Boolean(b) => if b then Text("true") else Text("false")
    case Integer(n) => Decimal(n)
    case String(s) => Quote(s)
    case Array(items) => [91] + ArrayBody(items)
    case Object(members) => [123] + ObjectBody(members)
  }

  function ArrayBody(items: seq<Json>): Str
    decreases items, 2
  {
    if items == [] then [93] else Print(items[0]) + PrintItems(items[1..])
  }

  function ObjectBody(members: seq<Member>): Str
    decreases members, 2
  {
    if members == [] then [125] else PrintMember(members[0]) + PrintMembers(members[1..])
  }

  /** The remaining items, each after `, `, and the closing bracket. */
  function PrintItems(items: seq<Json>): Str
    decreases items, 1
  {
    if items == [] then [93] else [44, 32] + Print(items[0]) + PrintItems(items[1..])
  }

  function PrintMember(m: Member): Str
    decreases m, 1
  {
    Quote(m.key) + [58, 32] + Print(m.value)
  }

  function PrintMembers(members: seq<Member>): Str
    decreases members, 1
  {
    if members == [] then [125] else [44, 32] + PrintMember(members[0]) + PrintMembers(members[1..])
  }

  // ---------- The text determines the tree up to UTF-16 encoding ----------

  /** The tree with every string, keys included, replaced by its code units. */
  function Encoded(j: Json): Json
    decreases j, 0
  {
    match j
    case String(s) => String(Utf16(s))
    case Array(items) => Array(EncodedItems(items))
    case Object(members) => Object(EncodedMembers(members))
    case _ => j
  }

  function EncodedItems(items: seq<Json>): (r: seq<Json>)
    ensures |r| == |items|
    ensures forall i :: 0 <= i < |items| ==> r[i] == Encoded(items[i])
    decreases items, 1
  {
    if items == [] then [] else [Encoded(items[0])] + EncodedItems(items[1..])
  }

  function EncodedMembers(members: seq<Member>): (r: seq<Member>)
    ensures |r| == |members|
    ensures forall i :: 0 <= i < |members| ==> r[i] == Member(Utf16(members[i].key), Encoded(members[i].value))
    decreases members, 1
  {
    if members == [] then []
    else [Member(Utf16(members[0].key), Encoded(members[0].value))] + EncodedMembers(members[1..])
  }

  lemma Regroup(x: Str, y: Str, r: Str)
    ensures (x + y) + r == x + (y + r)
  {
  }

  lemma Regroup3(x: Str, y: Str, z: Str, r: Str)
    ensures (x + y + z) + r == x + (y + (z + r))
  {
  }

  /** Equal texts whose first parts have equal length agree on both parts. */
  lemma Cancel(x: Str, r: Str, y: Str, t: Str)
    requires x + r == y + t && |x| == |y|
    ensures x == y && r == t
  {
    assert x == (x + r)[..|x|] && y == (y + t)[..|y|];
    assert r == (x + r)[|x|..] && t == (y + t)[|y|..];
  }

  lemma SameStart(x: Str, r: Str, y: Str, t: Str, i: nat)
    requires x + r == y + t && i < |x| && i < |y|
    ensures x[i] == y[i]
  {
    assert (x + r)[i] == x[i] && (y + t)[i] == y[i];
  }

  lemma HexDigitsDetermineUnit(u: int, v: int)
    requires 0 <= u < 0x10000 && 0 <= v < 0x10000
    requires u / 4096 == v / 4096 && u / 256 % 16 == v / 256 % 16 && u / 16 % 16 == v / 16 % 16 && u % 16 == v % 16
    ensures u == v
  {
    assert u / 4096 == u / 256 / 16;
    assert u / 256 == u / 16 / 16;
    assert v / 4096 == v / 256 / 16;
    assert v / 256 == v / 16 / 16;
  }

  lemma EscapeDeterminesUnit(u: CodePoint, v: CodePoint)
    requires u < 0x10000 && v < 0x10000 && EscapeUnit(u) == EscapeUnit(v)
    ensures u == v
  {
    var a, b := EscapeUnit(u), EscapeUnit(v);
    if |a| == 6 {
      assert a[2] == b[2] && a[3] == b[3] && a[4] == b[4] && a[5] == b[5];
      HexDigitsDetermineUnit(u, v);
    } else {
      assert a[|a| - 1] == b[|b| - 1];
    }
  }

  /** No escape is a prefix of another. */
  lemma UnitReadUniquely(u: CodePoint, r: Str, v: CodePoint, t: Str)
    requires u < 0x10000 && v < 0x10000
    requires EscapeUnit(u) + r == EscapeUnit(v) + t
    ensures u == v && r == t
  {
    var a, b := EscapeUnit(u), EscapeUnit(v);
    SameStart(a, r, b, t, 0);
    if |a| > 1 && |b| > 1 {
      SameStart(a, r, b, t, 1);
    }
    Cancel(a, r, b, t);
    EscapeDeterminesUnit(u, v);
  }

  lemma {:induction false} UnitsReadUniquely(us: Str, r: Str, vs: Str, t: Str)
    requires forall i :: 0 <= i < |us| ==> us[i] < 0x10000
    requires forall i :: 0 <= i < |vs| ==> vs[i] < 0x10000
    requires EscapeUnits(us) + ([34] + r) == EscapeUnits(vs) + ([34] + t)
    ensures us == vs && r == t
  {
    assert [] + ([34] + r) == [34] + r && [] + ([34] + t) == [34] + t;
    if us == [] && vs == [] {
      Cancel([34], r, [34], t);
    } else if us == [] {
      Regroup(EscapeUnit(vs[0]), EscapeUnits(vs[1..]), [34] + t);
      SameStart([34], r, EscapeUnit(vs[0]), EscapeUnits(vs[1..]) + ([34] + t), 0);
    } else if vs == [] {
      Regroup(EscapeUnit(us[0]), EscapeUnits(us[1..]), [34] + r);
      SameStart(EscapeUnit(us[0]), EscapeUnits(us[1..]) + ([34] + r), [34], t, 0);
    } else {
      var r', t' := EscapeUnits(us[1..]) + ([34] + r), EscapeUnits(vs[1..]) + ([34] + t);
      Regroup(EscapeUnit(us[0]), EscapeUnits(us[1..]), [34] + r);
      Regroup(EscapeUnit(vs[0]), EscapeUnits(vs[1..]), [34] + t);
      UnitReadUniquely(us[0], r', vs[0], t');
      UnitsReadUniquely(us[1..], r, vs[1..], t);
      assert us == [us[0]] + us[1..] && vs == [vs[0]] + vs[1..];
    }
  }

  lemma QuoteReadUniquely(a: Str, r: Str, b: Str, t: Str)
    requires Quote(a) + r == Quote(b) + t
    ensures Utf16(a) == Utf16(b) && r == t
  {
    Regroup3([34], EscapeUnits(Utf16(a)), [34], r);
    Regroup3([34], EscapeUnits(Utf16(b)), [34], t);
    Cancel([34], EscapeUnits(Utf16(a)) + ([34] + r), [34], EscapeUnits(Utf16(b)) + ([34] + t));
    UnitsReadUniquely(Utf16(a), r, Utf16(b), t);
  }

  predicate IsDigit(c: CodePoint) { 48 <= c <= 57 }

  /** What may follow a complete value. */
  predicate NotDigitNext(r: Str) { r == [] || !IsDigit(r[0]) }

  lemma {:induction false} DigitsShape(n: nat)
    ensures |Digits(n)| > 0 && forall i :: 0 <= i < |Digits(n)| ==> IsDigit(Digits(n)[i])
  {
    if n >= 10 {
      DigitsShape(n / 10);
    }
  }

  lemma {:induction false} DigitsDetermineNumber(n: nat, m: nat)
    requires Digits(n) == Digits(m)
    ensures n == m
  {
    var a, b := Digits(n), Digits(m);
    DigitsShape(n / 10);
    DigitsShape(m / 10);
    assert a[|a| - 1] == 48 + n % 10 && b[|b| - 1] == 48 + m % 10;
    if n >= 10 && m >= 10 {
      assert a[..|a| - 1] == Digits(n / 10) && b[..|b| - 1] == Digits(m / 10);
      DigitsDetermineNumber(n / 10, m / 10);
    }
  }

  lemma NextAfter(a: Str, r: Str, b: Str, t: Str)
    requires a + r == b + t && |a| < |b|
    ensures r != [] && r[0] == b[|a|]
  {
    assert (b + t)[|a|] == b[|a|];
    assert (a + r)[|a|] == r[0];
  }

  /** A run of digits ends where the digits end. */
  lemma DigitsNoLonger(a: Str, r: Str, b: Str, t: Str)
    requires a + r == b + t && NotDigitNext(r)
    requires forall i :: 0 <= i < |b| ==> IsDigit(b[i])
    ensures |b| <= |a|
  {
    if |a| < |b| {
      NextAfter(a, r, b, t);
    }
  }

  lemma DigitsReadUniquely(n: nat, r: Str, m: nat, t: Str)
    requires Digits(n) + r == Digits(m) + t && NotDigitNext(r) && NotDigitNext(t)
    ensures n == m && r == t
  {
    DigitsShape(n);
    DigitsShape(m);
    DigitsNoLonger(Digits(n), r, Digits(m), t);
    DigitsNoLonger(Digits(m), t, Digits(n), r);
    Cancel(Digits(n), r, Digits(m), t);
    DigitsDetermineNumber(n, m);
  }

  lemma DecimalReadUniquely(n: int, r: Str, m: int, t: Str)
    requires Decimal(n) + r == Decimal(m) + t && NotDigitNext(r) && NotDigitNext(t)
    ensures n == m && r == t
  {
    DigitsShape(if n < 0 then -n else n);
    DigitsShape(if m < 0 then -m else m);
    SameStart(Decimal(n), r, Decimal(m), t, 0);
    if n < 0 {
      assert m < 0;
      Regroup([45], Digits(-n), r);
      Regroup([45], Digits(-m), t);
      Cancel([45], Digits(-n) + r, [45], Digits(-m) + t);
      DigitsReadUniquely(-n, r, -m, t);
    } else {
      assert m >= 0;
      DigitsReadUniquely(n, r, m, t);
    }
  }

  /** The first character tells which kind of value follows. */
  function KindOf(j: Json): nat {
    match j
    case Null => 0
    case Boolean(b) => if b then 1 else 2
    case Integer(_) => 3
    case String(_) => 4
    case Array(_) => 5
    case Object(_) => 6
  }

  function KindFrom(c: CodePoint): nat {
    if c == 110 then 0 else if c == 116 then 1 else if c == 102 then 2
    else if c == 34 then 4 else if c == 91 then 5 else if c == 123 then 6 else 3
  }

  lemma FirstCharacter(j: Json)
    ensures |Print(j)| > 0 && KindFrom(Print(j)[0]) == KindOf(j) && Print(j)[0] != 93
  {
    if j.Integer? {
      DigitsShape(if j.n < 0 then -j.n else j.n);
    }
  }

  lemma StartsAlike(a: Json, r: Str, b: Json, t: Str)
    requires Print(a) + r == Print(b) + t
    ensures KindOf(a) == KindOf(b)
  {
    FirstCharacter(a);
    FirstCharacter(b);
    SameStart(Print(a), r, Print(b), t, 0);
  }

  /** A printed value can be read back in one way, wherever it stands. */
  lemma {:induction false} PrintReadUniquely(a: Json, r: Str, b: Json, t: Str)
    requires Print(a) + r == Print(b) + t && NotDigitNext(r) && NotDigitNext(t)
    ensures Encoded(a) == Encoded(b) && r == t
    decreases a, 0
  {
    StartsAlike(a, r, b, t);
    match a
    case Integer(n) =>
      DecimalReadUniquely(n, r, b.n, t);
    case String(s) =>
      QuoteReadUniquely(s, r, b.s, t);
    case Array(items) =>
      Regroup([91], ArrayBody(items), r);
      Regroup([91], ArrayBody(b.items), t);
      Cancel([91], ArrayBody(items) + r, [91], ArrayBody(b.items) + t);
      ArrayReadUniquely(items, r, b.items, t);
    case Object(members) =>
      Regroup([123], ObjectBody(members), r);
      Regroup([123], ObjectBody(b.members), t);
      Cancel([123], ObjectBody(members) + r, [123], ObjectBody(b.members) + t);
      ObjectReadUniquely(members, r, b.members, t);
    case _ =>
      Cancel(Print(a), r, Print(b), t);
  }

  lemma {:induction false} ArrayReadUniquely(a: seq<Json>, r: Str, b: seq<Json>, t: Str)
    requires ArrayBody(a) + r == ArrayBody(b) + t
    ensures EncodedItems(a) == EncodedItems(b) && r == t
    decreases a, 2
  {
    if a != [] {
      FirstCharacter(a[0]);
      Regroup(Print(a[0]), PrintItems(a[1..]), r);
    }
    if b != [] {
      FirstCharacter(b[0]);
      Regroup(Print(b[0]), PrintItems(b[1..]), t);
    }
    if a == [] || b == [] {
      SameStart(ArrayBody(a), r, ArrayBody(b), t, 0);
      Cancel(ArrayBody(a), r, ArrayBody(b), t);
    } else {
      PrintReadUniquely(a[0], PrintItems(a[1..]) + r, b[0], PrintItems(b[1..]) + t);
      ItemsReadUniquely(a[1..], r, b[1..], t);
    }
  }

  lemma {:induction false} ItemsReadUniquely(a: seq<Json>, r: Str, b: seq<Json>, t: Str)
    requires PrintItems(a) + r == PrintItems(b) + t
    ensures EncodedItems(a) == EncodedItems(b) && r == t
    decreases a, 1
  {
    SameStart(PrintItems(a), r, PrintItems(b), t, 0);
    if a == [] {
      Cancel([93], r, [93], t);
    } else {
      var r', t' := PrintItems(a[1..]) + r, PrintItems(b[1..]) + t;
      Regroup3([44, 32], Print(a[0]), PrintItems(a[1..]), r);
      Regroup3([44, 32], Print(b[0]), PrintItems(b[1..]), t);
      Cancel([44, 32], Print(a[0]) + r', [44, 32], Print(b[0]) + t');
      PrintReadUniquely(a[0], r', b[0], t');
      ItemsReadUniquely(a[1..], r, b[1..], t);
    }
  }

  lemma {:induction false} ObjectReadUniquely(a: seq<Member>, r: Str, b: seq<Member>, t: Str)
    requires ObjectBody(a) + r == ObjectBody(b) + t
    ensures EncodedMembers(a) == EncodedMembers(b) && r == t
    decreases a, 2
  {
    SameStart(ObjectBody(a), r, ObjectBody(b), t, 0);
    if a == [] || b == [] {
      Cancel(ObjectBody(a), r, ObjectBody(b), t);
    } else {
      Regroup(PrintMember(a[0]), PrintMembers(a[1..]), r);
      Regroup(PrintMember(b[0]), PrintMembers(b[1..]), t);
      MemberReadUniquely(a[0], PrintMembers(a[1..]) + r, b[0], PrintMembers(b[1..]) + t);
      MembersReadUniquely(a[1..], r, b[1..], t);
    }
  }

  lemma {:induction false} MemberReadUniquely(a: Member, r: Str, b: Member, t: Str)
    requires PrintMember(a) + r == PrintMember(b) + t && NotDigitNext(r) && NotDigitNext(t)
    ensures Utf16(a.key) == Utf16(b.key) && Encoded(a.value) == Encoded(b.value) && r == t
    decreases a, 1
  {
    Regroup3(Quote(a.key), [58, 32], Print(a.value), r);
    Regroup3(Quote(b.key), [58, 32], Print(b.value), t);
    QuoteReadUniquely(a.key, [58, 32] + (Print(a.value) + r), b.key, [58, 32] + (Print(b.value) + t));
    Cancel([58, 32], Print(a.value) + r, [58, 32], Print(b.value) + t);
    PrintReadUniquely(a.value, r, b.value, t);
  }

  lemma {:induction false} MembersReadUniquely(a: seq<Member>, r: Str, b: seq<Member>, t: Str)
    requires PrintMembers(a) + r == PrintMembers(b) + t
    ensures EncodedMembers(a) == EncodedMembers(b) && r == t
    decreases a, 1
  {
    SameStart(PrintMembers(a), r, PrintMembers(b), t, 0);
    if a == [] {
      Cancel([125], r, [125], t);
    } else {
      var r', t' := PrintMembers(a[1..]) + r, PrintMembers(b[1..]) + t;
      Regroup3([44, 32], PrintMember(a[0]), PrintMembers(a[1..]), r);
      Regroup3([44, 32], PrintMember(b[0]), PrintMembers(b[1..]), t);
      Cancel([44, 32], PrintMember(a[0]) + r', [44, 32], PrintMember(b[0]) + t');
      MemberReadUniquely(a[0], r', b[0], t');
      MembersReadUniquely(a[1..], r, b[1..], t);
    }
  }

  /** Trees that agree after encoding print alike. */
  lemma {:induction false} PrintOfEncoded(a: Json, b: Json)
    requires Encoded(a) == Encoded(b)
    ensures Print(a) == Print(b)
    decreases a, 0
  {
    match a
    case Array(items) =>
      if items != [] {
        assert EncodedItems(items)[0] == EncodedItems(b.items)[0];
        PrintOfEncoded(items[0], b.items[0]);
        PrintOfEncodedItems(items[1..], b.items[1..]);
      }
    case Object(members) =>
      if members != [] {
        assert EncodedMembers(members)[0] == EncodedMembers(b.members)[0];
        PrintOfEncoded(members[0].value, b.members[0].value);
        assert PrintMember(members[0]) == PrintMember(b.members[0]);
        PrintOfEncodedMembers(members[1..], b.members[1..]);
      }
    case _ =>
  }

  lemma {:induction false} PrintOfEncodedItems(a: seq<Json>, b: seq<Json>)
    requires EncodedItems(a) == EncodedItems(b)
    ensures PrintItems(a) == PrintItems(b)
    decreases a, 1
  {
    if a != [] {
      assert EncodedItems(a)[0] == EncodedItems(b)[0];
      PrintOfEncoded(a[0], b[0]);
      PrintOfEncodedItems(a[1..], b[1..]);
    }
  }

  lemma {:induction false} PrintOfEncodedMembers(a: seq<Member>, b: seq<Member>)
    requires EncodedMembers(a) == EncodedMembers(b)
    ensures PrintMembers(a) == PrintMembers(b)
    decreases a, 1
  {
    if a != [] {
      assert EncodedMembers(a)[0] == EncodedMembers(b)[0];
      PrintOfEncoded(a[0].value, b[0].value);
      PrintOfEncodedMembers(a[1..], b[1..]);
    }
  }

  /** The printer's kernel, for all trees. */
  lemma PrintedAlikeIffEncodedAlike(a: Json, b: Json)
    ensures Print(a) == Print(b) <==> Encoded(a) == Encoded(b)
  {
    if Print(a) == Print(b) {
      assert Print(a) + [] == Print(b) + [];
      PrintReadUniquely(a, [], b, []);
    }
    if Encoded(a) == Encoded(b) {
      PrintOfEncoded(a, b);
    }
  }

  // ---------- The format, in the text's own characters ----------

  /** `sep.join(parts)`. */
  function Joined(sep: Str, parts: seq<Str>): Str {
    if parts == [] then []
    else if |parts| == 1 then parts[0]
    else Joined(sep, parts[..|parts| - 1]) + sep + parts[|parts| - 1]
  }

  lemma {:induction false} JoinedFirst(sep: Str, first: Str, parts: seq<Str>)
    requires parts != []
    ensures Joined(sep, [first] + parts) == first + sep + Joined(sep, parts)
  {
    var all, n := [first] + parts, |parts|;
    assert all[..n] == [first] + parts[..n - 1];
    if n > 1 {
      JoinedFirst(sep, first, parts[..n - 1]);
    } else {
      assert all[..1] == [first];
    }
  }

  function PrintedItems(items: seq<Json>): (r: seq<Str>)
    ensures |r| == |items| && forall i :: 0 <= i < |items| ==> r[i] == Print(items[i])
  {
    seq(|items|, i requires 0 <= i < |items| => Print(items[i]))
  }

  function PrintedMembers(ms: seq<Member>): (r: seq<Str>)
    ensures |r| == |ms|
    ensures forall i :: 0 <= i < |ms| ==> r[i] == Quote(ms[i].key) + Text(": ") + Print(ms[i].value)
  {
    seq(|ms|, i requires 0 <= i < |ms| => Quote(ms[i].key) + Text(": ") + Print(ms[i].value))
  }

  lemma TailStep(sep: Str, first: Str, rest: Str, end: Str)
    ensures first + (sep + (rest + end)) == (first + sep + rest) + end
  {
  }

  lemma ItemsStep(items: seq<Json>)
    requires |items| > 1
    ensures ArrayBody(items) == Print(items[0]) + (Text(", ") + ArrayBody(items[1..]))
  {
    hide Print;
    assert Text(", ") == [44, 32];
    Regroup([44, 32], Print(items[1]), PrintItems(items[1..][1..]));
  }

  lemma {:induction false} ItemsJoined(items: seq<Json>)
    requires items != []
    ensures ArrayBody(items) == Joined(Text(", "), PrintedItems(items)) + Text("]")
  {
    if |items| > 1 {
      hide Print, ArrayBody, Joined, Text;
      ItemsStep(items);
      ItemsJoined(items[1..]);
      var rest := PrintedItems(items[1..]);
      assert PrintedItems(items) == [Print(items[0])] + rest;
      JoinedFirst(Text(", "), Print(items[0]), rest);
      TailStep(Text(", "), Print(items[0]), Joined(Text(", "), rest), Text("]"));
    } else {
      hide Print;
      assert items[1..] == [] && PrintItems([]) == [93] == Text("]");
      assert PrintedItems(items) == [Print(items[0])];
    }
  }

  lemma MembersStep(ms: seq<Member>)
    requires |ms| > 1
    ensures ObjectBody(ms) == PrintMember(ms[0]) + (Text(", ") + ObjectBody(ms[1..]))
  {
    hide PrintMember;
    assert Text(", ") == [44, 32];
    Regroup([44, 32], PrintMember(ms[1]), PrintMembers(ms[1..][1..]));
  }

  lemma MemberPrinted(m: Member)
    ensures PrintMember(m) == Quote(m.key) + Text(": ") + Print(m.value)
  {
    hide Quote, Print;
    assert Text(": ") == [58, 32];
  }

  lemma {:induction false} MembersJoined(ms: seq<Member>)
    requires ms != []
    ensures ObjectBody(ms) == Joined(Text(", "), PrintedMembers(ms)) + Text("}")
  {
    MemberPrinted(ms[0]);
    if |ms| > 1 {
      hide Print, PrintMember, ObjectBody, Joined, Text, Quote;
      MembersStep(ms);
      MembersJoined(ms[1..]);
      var rest := PrintedMembers(ms[1..]);
      assert PrintedMembers(ms) == [PrintMember(ms[0])] + rest;
      JoinedFirst(Text(", "), PrintMember(ms[0]), rest);
      TailStep(Text(", "), PrintMember(ms[0]), Joined(Text(", "), rest), Text("}"));
    } else {
      hide Print, PrintMember, Quote;
      assert ms[1..] == [] && PrintMembers([]) == [125] == Text("}");
      assert PrintedMembers(ms) == [PrintMember(ms[0])];
    }
  }

  /** Lists in brackets and dicts in braces, with `, ` between entries and `: ` after a key. */
  lemma ContainersPrinted(items: seq<Json>, ms: seq<Member>)
    ensures Print(Array(items)) == Text("[") + (Joined(Text(", "), PrintedItems(items)) + Text("]"))
    ensures Print(Object(ms)) == Text("{") + (Joined(Text(", "), PrintedMembers(ms)) + Text("}"))
    ensures Print(Null) == Text("null")
    ensures Print(Boolean(true)) == Text("true") && Print(Boolean(false)) == Text("false")
  {
    assert Text("[") == [91] && Text("{") == [123] && Text("]") == [93] && Text("}") == [125];
    if items != [] {
      ItemsJoined(items);
    }
    if ms != [] {
      MembersJoined(ms);
    }
  }

  /** What decimal digits stand for. */
  function ValueOf(digits: Str): int {
    if digits == [] then 0
    else ValueOf(digits[..|digits| - 1]) * 10 + (digits[|digits| - 1] as int - Text("0")[0] as int)
  }

  /** A number is printed in decimal, without leading zeros, and with a minus sign if it is negative. */
  lemma {:induction false} DigitsPrinted(n: nat)
    ensures ValueOf(Digits(n)) == n && Digits(n) != []
    ensures forall i :: 0 <= i < |Digits(n)| ==> Text("0")[0] <= Digits(n)[i] <= Text("9")[0]
    ensures Digits(n)[0] == Text("0")[0] ==> n == 0
    ensures Print(Integer(n)) == Digits(n) && (n > 0 ==> Print(Integer(0 - n)) == Text("-") + Digits(n))
  {
    assert Text("-") == [45];
    if n < 10 {
      assert [48 + n][..0] == [];
    } else {
      DigitsPrinted(n / 10);
      var d := Digits(n);
      assert d[..|d| - 1] == Digits(n / 10);
    }
  }

  ghost predicate Hex(u: int, a: int, b: int, c: int, d: int) {
    0 <= a < 16 && 0 <= b < 16 && 0 <= c < 16 && 0 <= d < 16 && u == a * 4096 + b * 256 + c * 16 + d
  }

  function HexText(a: int, b: int, c: int, d: int): Str
    requires 0 <= a < 16 && 0 <= b < 16 && 0 <= c < 16 && 0 <= d < 16
  {
    var digits := Text("0123456789abcdef");
    Text("\\u") + [digits[a], digits[b], digits[c], digits[d]]
  }

  /** The escape of one code unit: seven short ones, printable ASCII as itself, else four hex digits. */
  lemma UnitEscaped(u: CodePoint)
    requires u < 0x10000
    ensures EscapeUnit(34) == Text("\\\"") && EscapeUnit(92) == Text("\\\\") && EscapeUnit(10) == Text("\\n")
    ensures EscapeUnit(13) == Text("\\r") && EscapeUnit(9) == Text("\\t") && EscapeUnit(12) == Text("\\f")
    ensures EscapeUnit(8) == Text("\\b")
    ensures u in {34, 92, 10, 13, 9, 12, 8} || (32 <= u <= 126 && EscapeUnit(u) == [u])
      || exists a, b, c, d :: Hex(u, a, b, c, d) && EscapeUnit(u) == HexText(a, b, c, d)
  {
    if u !in {34, 92, 10, 13, 9, 12, 8} && !(32 <= u <= 126) {
      HexEscaped(u);
    }
  }

  lemma HexEscaped(u: CodePoint)
    requires u < 0x10000 && u !in {34, 92, 10, 13, 9, 12, 8} && !(32 <= u <= 126)
    ensures exists a, b, c, d :: Hex(u, a, b, c, d) && EscapeUnit(u) == HexText(a, b, c, d)
  {
    var a, b, c, d := u / 4096, u / 256 % 16, u / 16 % 16, u % 16;
    HexParts(u, a, b, c, d);
    assert EscapeUnit(u) == [92, 117, HexDigit(a), HexDigit(b), HexDigit(c), HexDigit(d)];
    hide EscapeUnit, Hex;
    HexWritten(a, b, c, d);
  }

  lemma HexWritten(a: int, b: int, c: int, d: int)
    requires 0 <= a < 16 && 0 <= b < 16 && 0 <= c < 16 && 0 <= d < 16
    ensures HexText(a, b, c, d) == [92, 117, HexDigit(a), HexDigit(b), HexDigit(c), HexDigit(d)]
  {
    hide HexDigit;
    HexDigitIs(a);
    HexDigitIs(b);
    HexDigitIs(c);
    HexDigitIs(d);
    assert Text("\\u") == [92, 117];
  }

  lemma HexParts(u: int, a: int, b: int, c: int, d: int)
    requires 0 <= u < 0x10000 && a == u / 4096 && b == u / 256 % 16 && c == u / 16 % 16 && d == u % 16
    ensures Hex(u, a, b, c, d)
  {
    assert u / 16 / 16 == u / 256 && u / 256 / 16 == u / 4096;
  }

  lemma HexDigitIs(d: int)
    requires 0 <= d < 16
    ensures HexDigit(d) == Text("0123456789abcdef")[d]
  {
  }

  /** Two surrogates that stand for a code point beyond the basic plane. */
  ghost predicate Surrogates(c: CodePoint, h: CodePoint, l: CodePoint) {
    IsHighSurrogate(h) && IsLowSurrogate(l) && c as int == 0x10000 + (h as int - 0xD800) * 0x400 + (l as int - 0xDC00)
  }

  /** A string is printed between quotes, unit by unit; beyond the basic plane a code point is two surrogates. */
  lemma StringPrinted(s: Str, c: CodePoint, rest: Str)
    ensures Print(String(s)) == Text("\"") + EscapeUnits(Utf16(s)) + Text("\"")
    ensures c < 0x10000 ==> EscapeUnits(Utf16([c] + rest)) == EscapeUnit(c) + EscapeUnits(Utf16(rest))
    ensures c >= 0x10000 ==> exists h: CodePoint, l: CodePoint ::
      Surrogates(c, h, l)
      && EscapeUnits(Utf16([c] + rest)) == EscapeUnit(h) + (EscapeUnit(l) + EscapeUnits(Utf16(rest)))
    ensures EscapeUnits(Utf16([])) == []
  {
    assert Text("\"") == [34];
    var t := [c] + rest;
    assert t[1..] == rest;
    if c >= 0x10000 {
      var h, l := HighHalf(c), LowHalf(c);
      assert Utf16(t)[1..] == [l] + Utf16(rest) && ([l] + Utf16(rest))[1..] == Utf16(rest);
      HalvesAreSurrogates(c);
      assert EscapeUnits(Utf16(t)) == EscapeUnit(h) + (EscapeUnit(l) + EscapeUnits(Utf16(rest)));
    } else {
      assert Utf16(t)[1..] == Utf16(rest);
    }
  }

  lemma HalvesAreSurrogates(c: CodePoint)
    requires c >= 0x10000
    ensures Surrogates(c, HighHalf(c), LowHalf(c)) && HighHalf(c) < 0x10000 && LowHalf(c) < 0x10000
  {
  }
}
