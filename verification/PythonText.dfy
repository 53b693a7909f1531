/** Python `str` values as the program sees them: sequences of code points, which may
    include unpaired surrogates, compared code point by code point. */
module PythonText {

  type CodePoint = c: int | 0 <= c < 0x110000

  type Str = seq<CodePoint>

  /** A source literal. */
  function Text(s: string): (t: Str)
    ensures |t| == |s|
    ensures forall i :: 0 <= i < |s| ==> t[i] == s[i] as int
  {
    seq(|s|, i requires 0 <= i < |s| => s[i] as int)
  }

  /** `str.isspace` for one code point; `str.strip` and the regular expression `\s` agree on it. */
  predicate IsSpace(c: CodePoint) {
    || 0x09 <= c <= 0x0D || 0x1C <= c <= 0x20 || c == 0x85 || c == 0xA0 || c == 0x1680
    || 0x2000 <= c <= 0x200A || c == 0x2028 || c == 0x2029 || c == 0x202F || c == 0x205F || c == 0x3000
  }

  /** Python's `a <= b` on strings. */
  predicate LexLeq(a: Str, b: Str) {
    a == [] || (b != [] && (a[0] < b[0] || (a[0] == b[0] && LexLeq(a[1..], b[1..]))))
  }

  lemma {:induction false} LexTotal(a: Str, b: Str)
    ensures LexLeq(a, b) || LexLeq(b, a)
  {
    if a != [] && b != [] && a[0] == b[0] {
      LexTotal(a[1..], b[1..]);
    }
  }

  lemma {:induction false} LexTransitive(a: Str, b: Str, c: Str)
    requires LexLeq(a, b) && LexLeq(b, c)
    ensures LexLeq(a, c)
  {
    if a != [] && a[0] == b[0] == c[0] {
      LexTransitive(a[1..], b[1..], c[1..]);
    }
  }

  lemma {:induction false} LexAntisymmetric(a: Str, b: Str)
    requires LexLeq(a, b) && LexLeq(b, a)
    ensures a == b
  {
    if a != [] {
      LexAntisymmetric(a[1..], b[1..]);
      assert a == [a[0]] + a[1..] && b == [b[0]] + b[1..];
    }
  }

  /** The strings agree before `i`, where `a` has the smaller code point. */
  ghost predicate SmallerAt(a: Str, b: Str, i: int) {
    0 <= i < |a| && i < |b| && a[..i] == b[..i] && a[i] < b[i]
  }

  /** The order is the dictionary's: a prefix comes first, else the first different code point decides. */
  lemma {:induction false} LexLeqExact(a: Str, b: Str)
    ensures LexLeq(a, b) <==> a <= b || exists i :: SmallerAt(a, b, i)
  {
    if a != [] && b != [] {
      if a[0] == b[0] {
        LexLeqExact(a[1..], b[1..]);
        EqualHeads(a, b);
      } else {
        assert a[0] < b[0] ==> SmallerAt(a, b, 0);
        assert forall i :: SmallerAt(a, b, i) ==> i == 0 || a[..i][0] == b[..i][0];
      }
    }
  }

  lemma EqualHeads(a: Str, b: Str)
    requires a != [] && b != [] && a[0] == b[0]
    ensures a <= b <==> a[1..] <= b[1..]
    ensures (exists i :: SmallerAt(a, b, i)) <==> (exists i :: SmallerAt(a[1..], b[1..], i))
  {
    var x, y := a[1..], b[1..];
    assert a == [a[0]] + x && b == [b[0]] + y;
    if i :| SmallerAt(a, b, i) {
      assert x[..i - 1] == a[..i][1..] && y[..i - 1] == b[..i][1..];
      assert SmallerAt(x, y, i - 1);
    }
    if i :| SmallerAt(x, y, i) {
      assert a[..i + 1] == [a[0]] + x[..i] && b[..i + 1] == [b[0]] + y[..i];
      assert SmallerAt(a, b, i + 1);
    }
  }

  /** The code points that count as whitespace, one by one. */
  lemma SpacesAre(c: CodePoint)
    ensures IsSpace(c) <==> c in {
      9, 10, 11, 12, 13, 28, 29, 30, 31, 32, 133, 160, 5760, 8192, 8193, 8194, 8195, 8196, 8197, 8198, 8199,
      8200, 8201, 8202, 8232, 8233, 8239, 8287, 12288 }
  {
  }
}
