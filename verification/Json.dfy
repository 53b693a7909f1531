/** JSON values as `json.loads` builds them: a Python dict keeps its members in insertion
    order under distinct keys. Floats are not modelled. */
module Json {
  import opened PythonText
  import opened Sorting

  datatype Member = Member(key: Str, value: Json)

  datatype Json =
    | Null
    | Boolean(b: bool)
    | Integer(n: int)
    | String(s: Str)
    | Array(items: seq<Json>)
    | Object(members: seq<Member>)

  /** No dict in the value repeats a key. */
  ghost predicate DistinctKeys(j: Json)
    decreases j
  {
    match j
    case Array(items) => forall i :: 0 <= i < |items| ==> DistinctKeys(items[i])
    case Object(members) =>
      && KeysDistinct(members)
      && (forall i :: 0 <= i < |members| ==> DistinctKeys(members[i].value))
    case _ => true
  }

  // ---------- Meaning: equality ignoring key order ----------

  /** The same values with dicts as finite maps; two arguments mean the same iff their meanings are equal. */
  datatype Meaning =
    | NullMeaning
    | BooleanMeaning(b: bool)
    | IntegerMeaning(n: int)
    | StringMeaning(s: Str)
    | ArrayMeaning(items: seq<Meaning>)
    | ObjectMeaning(entries: map<Str, Meaning>)

  ghost function MeaningOf(j: Json): Meaning
    decreases j, 0
  {
    match j
    case Null => NullMeaning
    case Boolean(b) => BooleanMeaning(b)
    case Integer(n) => IntegerMeaning(n)
    case String(s) => StringMeaning(s)
    case Array(items) => ArrayMeaning(MeaningOfItems(items))
    case Object(members) => ObjectMeaning(EntriesOf(members))
  }

  ghost function MeaningOfItems(items: seq<Json>): (r: seq<Meaning>)
    ensures |r| == |items|
    ensures forall i :: 0 <= i < |items| ==> r[i] == MeaningOf(items[i])
    decreases items, 1
  {
    if items == [] then [] else [MeaningOf(items[0])] + MeaningOfItems(items[1..])
  }

  /** The dict those members build, one assignment after another. */
  ghost function EntriesOf(members: seq<Member>): map<Str, Meaning>
    decreases members, 1
  {
    if members == [] then map[]
    else
      var last := members[|members| - 1];
      EntriesOf(members[..|members| - 1])[last.key := MeaningOf(last.value)]
  }

  ghost predicate HasEntry(members: seq<Member>, k: Str, v: Meaning) {
    exists i :: 0 <= i < |members| && members[i].key == k && MeaningOf(members[i].value) == v
  }

  ghost predicate KeysDistinct(members: seq<Member>) {
    forall i, k :: 0 <= i < k < |members| ==> members[i].key != members[k].key
  }

  lemma {:induction false} EntriesExact(members: seq<Member>, k: Str, v: Meaning)
    requires KeysDistinct(members)
    ensures (k in EntriesOf(members) && EntriesOf(members)[k] == v) <==> HasEntry(members, k, v)
  {
    if members != [] {
      hide MeaningOf;
      var n := |members| - 1;
      var front := members[..n];
      EntriesExact(front, k, v);
      if HasEntry(front, k, v) {
        var i :| 0 <= i < |front| && front[i].key == k && MeaningOf(front[i].value) == v;
        assert members[i].key == k && MeaningOf(members[i].value) == v;
      }
      if HasEntry(members, k, v) {
        var i :| 0 <= i < |members| && members[i].key == k && MeaningOf(members[i].value) == v;
        if i < n {
          assert front[i].key == k && MeaningOf(front[i].value) == v;
        }
      }
    }
  }

  /** Dicts with the same entries are equal. */
  lemma EntriesEqual(a: seq<Member>, b: seq<Member>)
    requires KeysDistinct(a) && KeysDistinct(b)
    requires forall k, v :: HasEntry(a, k, v) <==> HasEntry(b, k, v)
    ensures EntriesOf(a) == EntriesOf(b)
  {
    forall k: Str
      ensures k in EntriesOf(a) <==> k in EntriesOf(b)
      ensures k in EntriesOf(a) && k in EntriesOf(b) ==> EntriesOf(a)[k] == EntriesOf(b)[k]
    {
      if k in EntriesOf(a) {
        EntriesExact(a, k, EntriesOf(a)[k]);
        EntriesExact(b, k, EntriesOf(a)[k]);
      }
      if k in EntriesOf(b) {
        EntriesExact(a, k, EntriesOf(b)[k]);
        EntriesExact(b, k, EntriesOf(b)[k]);
      }
    }
  }

  // ---------- Canonical trees: what `sort_keys=True` prints ----------

  predicate KeyLeq(a: Member, b: Member) {
    LexLeq(a.key, b.key)
  }

  function Canonical(j: Json): Json
    decreases j, 0
  {
    match j
    case Array(items) => Array(CanonicalItems(items))
    case Object(members) => Object(Sort(KeyLeq, CanonicalMembers(members)))
    case _ => j
  }

  function CanonicalItems(items: seq<Json>): (r: seq<Json>)
    ensures |r| == |items|
    ensures forall i :: 0 <= i < |items| ==> r[i] == Canonical(items[i])
    decreases items, 1
  {
    if items == [] then [] else [Canonical(items[0])] + CanonicalItems(items[1..])
  }

  function CanonicalMembers(members: seq<Member>): (r: seq<Member>)
    ensures |r| == |members|
    ensures forall i :: 0 <= i < |members| ==> r[i] == Member(members[i].key, Canonical(members[i].value))
    decreases members, 1
  {
    if members == [] then []
    else [Member(members[0].key, Canonical(members[0].value))] + CanonicalMembers(members[1..])
  }

  lemma KeyLeqIsPreorder()
    ensures TotalPreorder(KeyLeq)
  {
    forall a: Member, b: Member ensures KeyLeq(a, b) || KeyLeq(b, a) {
      LexTotal(a.key, b.key);
    }
    forall a: Member, b: Member, c: Member | KeyLeq(a, b) && KeyLeq(b, c) ensures KeyLeq(a, c) {
      LexTransitive(a.key, b.key, c.key);
    }
  }

  ghost predicate StrictlyByKey(s: seq<Member>) {
    && SortedBy(KeyLeq, s)
    && KeysDistinct(s)
  }

  /** A set of members with distinct keys has one sorted listing. */
  lemma {:induction false} OneSortedListing(s: seq<Member>, t: seq<Member>)
    requires StrictlyByKey(s) && StrictlyByKey(t)
    requires forall m :: m in s <==> m in t
    ensures s == t
  {
    if s == [] {
      assert |t| == 0 by {
        forall m ensures multiset(t)[m] == 0 {
          assert m in multiset(t) <==> m in t;
        }
        assert multiset(t) == multiset{};
        assert |multiset(t)| == |t|;
      }
    } else {
      assert s[0] in s && s[0] in t;
      assert t[0] in t && t[0] in s;
      assert s[0] == t[0] by {
        var i :| 0 <= i < |t| && t[i] == s[0];
        var k :| 0 <= k < |s| && s[k] == t[0];
        if i != 0 && k != 0 {
          assert KeyLeq(t[0], t[i]) && KeyLeq(s[0], s[k]);
          LexAntisymmetric(s[0].key, t[0].key);
        }
      }
      forall m ensures m in s[1..] <==> m in t[1..] {
        assert m in s[1..] <==> m in s && m != s[0];
        assert m in t[1..] <==> m in t && m != t[0];
      }
      OneSortedListing(s[1..], t[1..]);
      assert s == [s[0]] + s[1..] && t == [t[0]] + t[1..];
    }
  }

  lemma SortIsStrict(ms: seq<Member>)
    requires KeysDistinct(ms)
    ensures StrictlyByKey(Sort(KeyLeq, ms))
    ensures |Sort(KeyLeq, ms)| == |ms| && forall m :: m in Sort(KeyLeq, ms) <==> m in ms
  {
    KeyLeqIsPreorder();
    SortCorrect(KeyLeq, ms);
    SortMembers(KeyLeq, ms);
    SortKeepsDistinct(KeyLeq, ms);
    var s := Sort(KeyLeq, ms);
    forall i, k | 0 <= i < k < |s| ensures s[i].key != s[k].key {
      assert s[i] in ms && s[k] in ms && s[i] != s[k];
    }
  }

  // ---------- Canonical trees represent meanings ----------

  /** Sorting the members of every dict keeps the meaning. */
  lemma {:induction false} CanonicalKeepsMeaning(j: Json)
    requires DistinctKeys(j)
    ensures DistinctKeys(Canonical(j)) && MeaningOf(Canonical(j)) == MeaningOf(j)
    decreases j
  {
    match j
    case Array(items) =>
      forall i | 0 <= i < |items|
        ensures DistinctKeys(Canonical(items[i])) && MeaningOf(Canonical(items[i])) == MeaningOf(items[i])
      {
        CanonicalKeepsMeaning(items[i]);
      }
    case Object(members) =>
      forall i | 0 <= i < |members|
        ensures DistinctKeys(Canonical(members[i].value))
        ensures MeaningOf(Canonical(members[i].value)) == MeaningOf(members[i].value)
      {
        CanonicalKeepsMeaning(members[i].value);
      }
      ObjectKeepsMeaning(members);
    case _ =>
  }

  lemma ObjectKeepsMeaning(members: seq<Member>)
    requires KeysDistinct(members)
    requires forall i :: 0 <= i < |members| ==>
      && DistinctKeys(Canonical(members[i].value))
      && MeaningOf(Canonical(members[i].value)) == MeaningOf(members[i].value)
    ensures DistinctKeys(Canonical(Object(members)))
    ensures MeaningOf(Canonical(Object(members))) == MeaningOf(Object(members))
  {
    hide HasEntry, EntriesOf, Sort;
    var c := CanonicalMembers(members);
    var s := Sort(KeyLeq, c);
    SortIsStrict(c);
    forall i | 0 <= i < |s| ensures DistinctKeys(s[i].value) {
      assert s[i] in c;
    }
    forall k, v ensures HasEntry(s, k, v) <==> HasEntry(members, k, v) {
      SameEntries(members, c, k, v);
      EntriesMove(s, c, k, v);
      EntriesMove(c, s, k, v);
    }
    EntriesEqual(s, members);
  }

  lemma SameEntries(members: seq<Member>, c: seq<Member>, k: Str, v: Meaning)
    requires |c| == |members|
    requires forall i :: 0 <= i < |c| ==>
      c[i].key == members[i].key && MeaningOf(c[i].value) == MeaningOf(members[i].value)
    ensures HasEntry(c, k, v) <==> HasEntry(members, k, v)
  {
    hide MeaningOf;
    if HasEntry(c, k, v) {
      var i :| 0 <= i < |c| && c[i].key == k && MeaningOf(c[i].value) == v;
      assert members[i].key == k;
    }
    if HasEntry(members, k, v) {
      var i :| 0 <= i < |members| && members[i].key == k && MeaningOf(members[i].value) == v;
      assert c[i].key == k;
    }
  }

  lemma EntriesMove(s: seq<Member>, t: seq<Member>, k: Str, v: Meaning)
    requires forall m :: m in s ==> m in t
    ensures HasEntry(s, k, v) ==> HasEntry(t, k, v)
  {
    hide MeaningOf;
    if HasEntry(s, k, v) {
      var i :| 0 <= i < |s| && s[i].key == k && MeaningOf(s[i].value) == v;
      assert s[i] in t;
    }
  }

  /** Values that mean the same have the same canonical tree. */
  lemma {:induction false} CanonicalFromMeaning(a: Json, b: Json)
    requires DistinctKeys(a) && DistinctKeys(b) && MeaningOf(a) == MeaningOf(b)
    ensures Canonical(a) == Canonical(b)
    decreases a
  {
    match a
    case Array(items) =>
      forall i | 0 <= i < |items| ensures Canonical(items[i]) == Canonical(b.items[i]) {
        assert MeaningOfItems(items)[i] == MeaningOfItems(b.items)[i];
        CanonicalFromMeaning(items[i], b.items[i]);
      }
      assert CanonicalItems(items) == CanonicalItems(b.items);
    case Object(members) =>
      forall i, k | 0 <= i < |members| && 0 <= k < |b.members|
                    && MeaningOf(members[i].value) == MeaningOf(b.members[k].value)
        ensures Canonical(members[i].value) == Canonical(b.members[k].value)
      {
        CanonicalFromMeaning(members[i].value, b.members[k].value);
      }
      SameListing(members, b.members);
    case _ =>
  }

  /** Dicts with equal entries sort to the same members. */
  lemma SameListing(a: seq<Member>, b: seq<Member>)
    requires KeysDistinct(a) && KeysDistinct(b) && EntriesOf(a) == EntriesOf(b)
    requires forall i, k :: 0 <= i < |a| && 0 <= k < |b| && MeaningOf(a[i].value) == MeaningOf(b[k].value)
               ==> Canonical(a[i].value) == Canonical(b[k].value)
    ensures Canonical(Object(a)) == Canonical(Object(b))
  {
    var c, d := CanonicalMembers(a), CanonicalMembers(b);
    SortIsStrict(c);
    SortIsStrict(d);
    forall i | 0 <= i < |a| ensures c[i] in d {
      var k := Counterpart(a, b, i);
      assert d[k] == c[i];
    }
    forall i | 0 <= i < |b| ensures d[i] in c {
      var k := Counterpart(b, a, i);
      assert c[k] == d[i];
    }
    OneSortedListing(Sort(KeyLeq, c), Sort(KeyLeq, d));
  }

  lemma Counterpart(a: seq<Member>, b: seq<Member>, i: nat) returns (k: nat)
    requires KeysDistinct(a) && KeysDistinct(b) && EntriesOf(a) == EntriesOf(b) && i < |a|
    ensures k < |b| && b[k].key == a[i].key && MeaningOf(b[k].value) == MeaningOf(a[i].value)
  {
    var v := MeaningOf(a[i].value);
    assert HasEntry(a, a[i].key, v);
    EntriesExact(a, a[i].key, v);
    EntriesExact(b, a[i].key, v);
    k :| 0 <= k < |b| && b[k].key == a[i].key && MeaningOf(b[k].value) == v;
  }

  /** Equality ignoring key order is equality of canonical trees. */
  lemma SameMeaningIffSameCanonical(a: Json, b: Json)
    requires DistinctKeys(a) && DistinctKeys(b)
    ensures Canonical(a) == Canonical(b) <==> MeaningOf(a) == MeaningOf(b)
  {
    CanonicalKeepsMeaning(a);
    CanonicalKeepsMeaning(b);
    if MeaningOf(a) == MeaningOf(b) {
      CanonicalFromMeaning(a, b);
    }
  }
}
