/** Spelling variants of a table's fully qualified name and the lookup that tries them in turn. */
module TableNames {
  import opened PythonText
  import opened Wrappers

  const DOT: CodePoint := 46

  const DEFAULT_SCHEMA: Str := [100, 101, 102, 97, 117, 108, 116]

  /** `text.split(".")`: never empty, and no part holds a dot. */
  function Split(text: Str): (parts: seq<Str>)
    ensures |parts| > 0
    ensures forall i :: 0 <= i < |parts| ==> DOT !in parts[i]
    ensures Join(parts) == text
  {
    if text == [] then [[]]
    else
      var rest := Split(text[1..]);
      if text[0] == DOT then
        assert Join([[]] + rest) == [DOT] + Join(rest) by { assert ([[]] + rest)[1..] == rest; }
        [[]] + rest
      else
        assert Join([[text[0]] + rest[0]] + rest[1..]) == [text[0]] + Join(rest) by {
          assert ([[text[0]] + rest[0]] + rest[1..])[1..] == rest[1..];
        }
        [[text[0]] + rest[0]] + rest[1..]
  }

  /** `".".join(parts)`. */
  function Join(parts: seq<Str>): Str
    requires |parts| > 0
  {
    if |parts| == 1 then parts[0] else parts[0] + [DOT] + Join(parts[1..])
  }

  /** Splitting undoes joining when no part holds a dot. */
  lemma {:induction false} SplitOfJoin(parts: seq<Str>)
    requires |parts| > 0 && forall i :: 0 <= i < |parts| ==> DOT !in parts[i]
    ensures Split(Join(parts)) == parts
    decreases |parts|, |parts[0]|
  {
    var text := Join(parts);
    if parts[0] == [] {
      if |parts| == 1 {
        assert parts == [[]];
      } else {
        assert text == [DOT] + Join(parts[1..]);
        assert text[1..] == Join(parts[1..]);
        SplitOfJoin(parts[1..]);
        assert parts == [[]] + parts[1..];
      }
    } else {
      var head := parts[0];
      var shorter := [head[1..]] + parts[1..];
      assert shorter[1..] == parts[1..];
      assert text[0] == head[0] && text[1..] == Join(shorter) by {
        if |parts| == 1 {
          assert Join(shorter) == head[1..];
        } else {
          assert Join(shorter) == head[1..] + [DOT] + Join(parts[1..]);
          assert text == head + [DOT] + Join(parts[1..]);
        }
      }
      assert head[0] in head;
      forall i | 0 <= i < |shorter| ensures DOT !in shorter[i] {
        if i == 0 {
          assert forall c :: c in head[1..] ==> c in head;
        } else {
          assert shorter[i] == parts[i];
        }
      }
      SplitOfJoin(shorter);
      assert head == [head[0]] + head[1..];
      assert parts == [head] + parts[1..];
    }
  }

  /** The other spelling, if the name has one: with or without a `default` schema in third place. */
  function Variant(fqn: Str): Option<Str> {
    var parts := Split(fqn);
    if |parts| == 3 then Some(Join([parts[0], parts[1], DEFAULT_SCHEMA, parts[2]]))
    else if |parts| == 4 && parts[2] == DEFAULT_SCHEMA then Some(Join([parts[0], parts[1], parts[3]]))
    else None
  }

  function Candidates(fqn: Str): (names: seq<Str>)
    ensures |names| > 0 && names[0] == fqn
  {
    match Variant(fqn)
    case None => [fqn]
    case Some(other) => [fqn, other]
  }

  lemma LongerVariant(fqn: Str, parts: seq<Str>)
    requires parts == Split(fqn) && |parts| == 3
    ensures Variant(fqn).Some? && Variant(Variant(fqn).value) == Some(fqn) && Variant(fqn).value != fqn
  {
    assert DOT !in DEFAULT_SCHEMA;
    var others := [parts[0], parts[1], DEFAULT_SCHEMA, parts[2]];
    SplitOfJoin(others);
    hide Split, Join;
    assert [others[0], others[1], others[3]] == parts;
    assert Split(Join(others)) == others;
  }

  lemma ShorterVariant(fqn: Str, parts: seq<Str>)
    requires parts == Split(fqn) && |parts| == 4 && parts[2] == DEFAULT_SCHEMA
    ensures Variant(fqn).Some? && Variant(Variant(fqn).value) == Some(fqn) && Variant(fqn).value != fqn
  {
    var others := [parts[0], parts[1], parts[3]];
    SplitOfJoin(others);
    hide Split, Join;
    assert [others[0], others[1], DEFAULT_SCHEMA, others[2]] == parts;
    assert Split(Join(others)) == others;
  }

  lemma VariantParts(fqn: Str)
    requires Variant(fqn).Some?
    ensures Variant(Variant(fqn).value) == Some(fqn) && Variant(fqn).value != fqn
  {
    hide Split, Join;
    var parts := Split(fqn);
    if |parts| == 3 {
      LongerVariant(fqn, parts);
    } else {
      ShorterVariant(fqn, parts);
    }
  }

  /** Spelling variants are symmetric. */
  lemma CandidatesSymmetric(f: Str, g: Str)
    ensures f in Candidates(g) <==> g in Candidates(f)
  {
    if Variant(f) == Some(g) {
      VariantParts(f);
    }
    if Variant(g) == Some(f) {
      VariantParts(g);
    }
  }

  /** The list holds no duplicates, so the deduplication that follows keeps it whole. */
  lemma CandidatesDistinct(f: Str)
    ensures forall i, j :: 0 <= i < j < |Candidates(f)| ==> Candidates(f)[i] != Candidates(f)[j]
  {
    if Variant(f).Some? {
      VariantParts(f);
    }
  }

  /** Builds the variants and drops repeated ones in a loop. */
  method GetTableFqnCandidates(fqn: Str) returns (unique: seq<Str>)
    ensures unique == Candidates(fqn)
  {
    var candidates := [fqn];
    var parts := Split(fqn);
    if |parts| == 3 {
      candidates := candidates + [Join([parts[0], parts[1], DEFAULT_SCHEMA, parts[2]])];
    } else if |parts| == 4 && parts[2] == DEFAULT_SCHEMA {
      candidates := candidates + [Join([parts[0], parts[1], parts[3]])];
    }
    assert candidates == Candidates(fqn);
    CandidatesDistinct(fqn);
    var seen: set<Str> := {};
    unique := [];
    for i := 0 to |candidates|
      invariant unique == candidates[..i]
      invariant forall s :: s in seen <==> s in candidates[..i]
    {
      if candidates[i] in seen {
        continue;
      }
      seen := seen + {candidates[i]};
      unique := unique + [candidates[i]];
    }
  }

  // ---------- Looking a table up ----------

  /** A catalogue entry; a response may come without an id. */
  datatype Table = Table(id: Option<Str>)

  /** Tries each spelling until one is found. */
  method ResolveTable(catalogue: map<Str, Table>, fqn: Str) returns (table: Option<Table>)
    ensures table == Resolved(catalogue, fqn)
    ensures fqn in catalogue ==> table == Some(catalogue[fqn])
    ensures forall other :: other in Candidates(fqn) && fqn !in catalogue && other in catalogue ==>
      table == Some(catalogue[other])
    ensures table.None? <==> forall name :: name in Candidates(fqn) ==> name !in catalogue
  {
    var candidates := GetTableFqnCandidates(fqn);
    assert Variant(fqn).Some? ==> candidates[1] == Variant(fqn).value;
    table := None;
    for i := 0 to |candidates|
      invariant table == None && forall j :: 0 <= j < i ==> candidates[j] !in catalogue
    {
      if candidates[i] in catalogue {
        return Some(catalogue[candidates[i]]);
      }
    }
  }

  /** The name as given wins; otherwise its variant decides. */
  ghost function Resolved(catalogue: map<Str, Table>, fqn: Str): Option<Table> {
    if fqn in catalogue then Some(catalogue[fqn])
    else if Variant(fqn).Some? && Variant(fqn).value in catalogue then Some(catalogue[Variant(fqn).value])
    else None
  }

  /** A lookup finds the name's own entry, else its other spelling's, and nothing iff neither is there. */
  lemma LookupFinds(catalogue: map<Str, Table>, fqn: Str)
    ensures fqn in catalogue ==> Resolved(catalogue, fqn) == Some(catalogue[fqn])
    ensures forall other :: other in Candidates(fqn) && fqn !in catalogue && other in catalogue ==>
      Resolved(catalogue, fqn) == Some(catalogue[other])
    ensures Resolved(catalogue, fqn).None? <==> forall name :: name in Candidates(fqn) ==> name !in catalogue
  {
    hide Split, Variant;
    match Variant(fqn)
    case None => assert Candidates(fqn) == [fqn];
    case Some(other) => assert Candidates(fqn) == [fqn, other] && Candidates(fqn)[1] == other;
  }

  /** If exactly one of two spellings is in the catalogue, looking up either finds its table. */
  lemma OneSpellingFound(catalogue: map<Str, Table>, f: Str, g: Str)
    requires f in Candidates(g) && f in catalogue && g !in catalogue
    ensures Resolved(catalogue, f) == Resolved(catalogue, g) == Some(catalogue[f])
  {
    LookupFinds(catalogue, f);
    LookupFinds(catalogue, g);
  }

  ghost predicate DotFree(a: Str, b: Str, c: Str) {
    DOT !in a && DOT !in b && DOT !in c
  }

  /** `short` is `a.b.c` and `long` is `a.b.default.c`, for parts without dots. */
  ghost predicate Spellings(short: Str, long: Str) {
    exists a, b, c :: DotFree(a, b, c)
      && short == a + Text(".") + (b + Text(".") + c)
      && long == a + Text(".") + (b + Text(".") + (Text("default") + Text(".") + c))
  }

  lemma SpellingsAreCandidates(short: Str, long: Str)
    requires Spellings(short, long)
    ensures short in Candidates(long) && long in Candidates(short)
  {
    var a, b, c :| DotFree(a, b, c)
      && short == a + Text(".") + (b + Text(".") + c)
      && long == a + Text(".") + (b + Text(".") + (Text("default") + Text(".") + c));
    JoinThree(a, b, c);
    JoinFour(a, b, DEFAULT_SCHEMA, c);
    assert Text(".") == [DOT] && Text("default") == DEFAULT_SCHEMA;
    SplitOfJoin([a, b, c]);
    LongerVariant(short, [a, b, c]);
    CandidatesSymmetric(short, long);
  }

  lemma VariantSpells(f: Str, g: Str)
    requires Variant(f) == Some(g) && |Split(f)| == 3
    ensures Spellings(f, g)
  {
    var parts := Split(f);
    JoinThree(parts[0], parts[1], parts[2]);
    JoinFour(parts[0], parts[1], DEFAULT_SCHEMA, parts[2]);
    assert parts == [parts[0], parts[1], parts[2]];
    assert Text(".") == [DOT] && Text("default") == DEFAULT_SCHEMA;
    assert DotFree(parts[0], parts[1], parts[2]);
  }

  lemma ShortVariantSpells(f: Str, g: Str)
    requires Variant(f) == Some(g) && |Split(f)| == 4
    ensures Spellings(g, f)
  {
    var parts := Split(f);
    JoinThree(parts[0], parts[1], parts[3]);
    JoinFour(parts[0], parts[1], DEFAULT_SCHEMA, parts[3]);
    assert parts == [parts[0], parts[1], DEFAULT_SCHEMA, parts[3]];
    assert Text(".") == [DOT] && Text("default") == DEFAULT_SCHEMA;
    assert DotFree(parts[0], parts[1], parts[3]);
  }

  /** Two different names are candidates of each other iff they are a three-part name and the same name
      with `default` as its third of four parts. */
  lemma CandidatesExact(f: Str, g: Str)
    ensures g in Candidates(f) <==> g == f || Spellings(f, g) || Spellings(g, f)
  {
    hide Split, Join, Spellings;
    if Spellings(f, g) {
      SpellingsAreCandidates(f, g);
    }
    if Spellings(g, f) {
      SpellingsAreCandidates(g, f);
    }
    if Variant(f) == Some(g) {
      if |Split(f)| == 3 {
        VariantSpells(f, g);
      } else {
        ShortVariantSpells(f, g);
      }
    }
  }

  /** Both spellings resolve alike iff the catalogue does not hold two different tables under them. */
  lemma SpellingsResolveAlike(catalogue: map<Str, Table>, f: Str, g: Str)
    requires f in Candidates(g)
    ensures Resolved(catalogue, f) == Resolved(catalogue, g)
      <==> !(f in catalogue && g in catalogue && catalogue[f] != catalogue[g])
  {
    CandidatesSymmetric(f, g);
    if f != g {
      VariantParts(g);
    }
  }

  /** Where both names of a table are taken by different tables, each finds its own. */
  lemma SpellingsDisagree(a: Str, b: Str, c: Str, one: Table, other: Table)
    requires DOT !in a && DOT !in b && DOT !in c && one != other
    ensures var short, long := Join([a, b, c]), Join([a, b, DEFAULT_SCHEMA, c]);
      && long in Candidates(short) && long != short
      && Resolved(map[short := one, long := other], short) == Some(one)
      && Resolved(map[short := one, long := other], long) == Some(other)
  {
    var short := Join([a, b, c]);
    SplitOfJoin([a, b, c]);
    LongerVariant(short, [a, b, c]);
  }

  lemma JoinThree(a: Str, b: Str, c: Str)
    ensures Join([a, b, c]) == a + [DOT] + (b + [DOT] + c)
  {
    assert [a, b, c][1..] == [b, c] && [b, c][1..] == [c];
    assert Join([b, c]) == b + [DOT] + c;
  }

  lemma JoinFour(a: Str, b: Str, c: Str, d: Str)
    ensures Join([a, b, c, d]) == a + [DOT] + (b + [DOT] + (c + [DOT] + d))
  {
    assert [a, b, c, d][1..] == [b, c, d];
    JoinThree(b, c, d);
  }

  lemma ExampleSpellings()
    ensures Join([[97], [98], [99]]) == Text("a.b.c")
    ensures Join([[97], [98], DEFAULT_SCHEMA, [99]]) == Text("a.b.default.c")
  {
    hide Join;
    JoinThree([97], [98], [99]);
    JoinFour([97], [98], DEFAULT_SCHEMA, [99]);
  }

  /** For example two tables under `a.b.c` and `a.b.default.c`. */
  lemma DefaultSchemaDisagrees(one: Table, other: Table)
    requires one != other
    ensures var short, long := Text("a.b.c"), Text("a.b.default.c");
      && long in Candidates(short)
      && Resolved(map[short := one, long := other], short) != Resolved(map[short := one, long := other], long)
  {
    hide Join, Split, Text;
    ExampleSpellings();
    SpellingsDisagree([97], [98], [99], one, other);
  }
}
