/** From the model's final text to a report: extraction of the JSON object and the derived label. */
module ReportParser {
  import opened PythonText
  import opened Wrappers

  // ---------- Reports ----------

  datatype Label = HIGH | MEDIUM | LOW

  /** The schema accepts scores in this range only. */
  type Score = s: real | 0.0 <= s <= 1.0 witness 0.0

  datatype TimelineEvent = TimelineEvent(occurredAt: int, eventType: Str, entityFqn: Str, entityType: Str,
                                         description: Str, sequence: int)

  datatype AffectedConsumer = AffectedConsumer(entityFqn: Str, entityType: Str, level: int, service: Str)

  datatype Reason = RateLimitExceeded | LlmTimeout | ApiCallFailed | EmptyChoices | MissingMessage
                  | UnparsedAfterCorrection | IterationLimit

  /** Written by the model, or by the loop when it gives up. */
  datatype Summary = Authored(text: Str) | Unable(reason: Reason)

  datatype Report = Report(summary: Summary, score: Score, confidence: Label, timeline: seq<TimelineEvent>,
                           consumers: seq<AffectedConsumer>, toolCallsMade: int, agentIterations: int)

  /** What `json.loads` and the schema make of a candidate text. */
  datatype Verdict =
    | NotJson
    | NotADict
    | Rejected
    | Accepted(summary: Str, score: Score, claimed: Label, timeline: seq<TimelineEvent>,
               consumers: seq<AffectedConsumer>, toolCallsMade: int, agentIterations: int)

  function DeriveLabel(score: Score): Label {
    if score >= 0.85 then HIGH else if score >= 0.60 then MEDIUM else LOW
  }

  // ---------- Extraction ----------

  const TICK: CodePoint := 96
  const OPEN: CodePoint := 123
  const CLOSE: CodePoint := 125

  /** Three backticks at position `i`. */
  predicate FenceAt(t: Str, i: nat) {
    i + 3 <= |t| && t[i] == TICK && t[i + 1] == TICK && t[i + 2] == TICK
  }

  /** The first position from `i` on that holds no whitespace. */
  function SkipSpaces(t: Str, i: nat): (r: nat)
    requires i <= |t|
    ensures i <= r <= |t| && (forall k :: i <= k < r ==> IsSpace(t[k])) && (r < |t| ==> !IsSpace(t[r]))
    decreases |t| - i
  {
    if i < |t| && IsSpace(t[i]) then SkipSpaces(t, i + 1) else i
  }

  /** The end of `t` with trailing whitespace dropped, not before `low`. */
  function TrimEnd(t: Str, low: nat): (r: nat)
    requires low <= |t|
    ensures low <= r <= |t| && (forall k :: r <= k < |t| ==> IsSpace(t[k])) && (r > low ==> !IsSpace(t[r - 1]))
    decreases |t| - low
  {
    if low == |t| then low
    else
      var r := TrimEnd(t, low + 1);
      if r == low + 1 && IsSpace(t[low]) then low else r
  }

  function Strip(t: Str): Str {
    var start := SkipSpaces(t, 0);
    t[start..TrimEnd(t, start)]
  }

  /** `json` in any letter case; ignoring case, `s` also stands for the long s U+017F. */
  predicate JsonWordAt(t: Str, i: nat) {
    && i + 4 <= |t|
    && t[i] in {106, 74} && t[i + 1] in {115, 83, 0x17F} && t[i + 2] in {111, 79} && t[i + 3] in {110, 78}
  }

  /** A closing brace at `e` that only whitespace separates from a fence. */
  predicate ClosesAt(t: Str, e: nat) {
    e < |t| && t[e] == CLOSE && FenceAt(t, SkipSpaces(t, e + 1))
  }

  /** The lazy group ends at the first such brace. */
  function FirstClose(t: Str, i: nat): (r: Option<nat>)
    requires i <= |t|
    ensures r.Some? ==> i <= r.value < |t| && t[r.value] == CLOSE
    decreases |t| - i
  {
    if i == |t| then None
    else if ClosesAt(t, i) then Some(i)
    else FirstClose(t, i + 1)
  }

  /** Where the group opens if the pattern's head matches at `i`. No backtracking can help: neither
      `json` nor whitespace begins with what must follow it. */
  function GroupStart(t: Str, i: nat): (r: Option<nat>)
    ensures r.Some? ==> i + 3 <= r.value < |t| && t[r.value] == OPEN
  {
    if !FenceAt(t, i) then None
    else
      var k := SkipSpaces(t, if JsonWordAt(t, i + 3) then i + 7 else i + 3);
      if k < |t| && t[k] == OPEN then Some(k) else None
  }

  datatype Group = Group(start: nat, end: nat)

  function MatchAt(t: Str, i: nat): (r: Option<Group>)
    ensures r.Some? ==> r.value.start < r.value.end < |t| && t[r.value.start] == OPEN && t[r.value.end] == CLOSE
  {
    var k := GroupStart(t, i);
    if k.None? then None
    else
      var e := FirstClose(t, k.value + 1);
      if e.None? then None else Some(Group(k.value, e.value))
  }

  /** The leftmost match from `i` on. */
  function Search(t: Str, i: nat): (r: Option<Group>)
    requires i <= |t|
    ensures r.Some? ==> r.value.start < r.value.end < |t| && t[r.value.start] == OPEN && t[r.value.end] == CLOSE
    decreases |t| - i
  {
    var here := MatchAt(t, i);
    if here.Some? || i == |t| then here else Search(t, i + 1)
  }

  function Find(t: Str, c: CodePoint, i: nat): (r: Option<nat>)
    requires i <= |t|
    ensures r.Some? ==> i <= r.value < |t| && t[r.value] == c && forall k :: i <= k < r.value ==> t[k] != c
    ensures r.None? ==> forall k :: i <= k < |t| ==> t[k] != c
    decreases |t| - i
  {
    if i == |t| then None else if t[i] == c then Some(i) else Find(t, c, i + 1)
  }

  function RFind(t: Str, c: CodePoint, n: nat): (r: Option<nat>)
    requires n <= |t|
    ensures r.Some? ==> r.value < n && t[r.value] == c && forall k :: r.value < k < n ==> t[k] != c
    ensures r.None? ==> forall k :: 0 <= k < n ==> t[k] != c
  {
    if n == 0 then None else if t[n - 1] == c then Some(n - 1) else RFind(t, c, n - 1)
  }

  /** The candidate's first and last position: the fenced group, else the outermost braces. */
  function Locate(text: Str): (r: Option<Group>)
    ensures r.Some? ==> r.value.start < r.value.end < |text|
    ensures r.Some? ==> text[r.value.start] == OPEN && text[r.value.end] == CLOSE
  {
    var fenced := Search(text, 0);
    if fenced.Some? then fenced
    else
      var start, end := Find(text, OPEN, 0), RFind(text, CLOSE, |text|);
      if start.None? || end.None? || end.value < start.value then None
      else Some(Group(start.value, end.value))
  }

  /** The candidate object text, or `None` where the code raises. */
  function ExtractJson(content: Str): Option<Str> {
    var text := Strip(content);
    match Locate(text)
    case None => None
    case Some(group) => Some(text[group.start..group.end + 1])
  }

  /** `None` is the parse error. */
  function ParseReport(content: Str, judge: Str -> Verdict): (r: Option<Report>)
    ensures r.Some? ==> r.value.summary.Authored? && r.value.confidence == DeriveLabel(r.value.score)
  {
    match ExtractJson(content)
    case None => None
    case Some(candidate) =>
      match judge(candidate)
      case Accepted(summary, score, _, timeline, consumers, calls, iterations) =>
        Some(Report(Authored(summary), score, DeriveLabel(score), timeline, consumers, calls, iterations))
      case _ => None
  }

  // ---------- What extraction recovers ----------

  lemma {:induction false} FirstCloseIs(t: Str, i: nat, e: nat)
    requires i <= e < |t| && ClosesAt(t, e) && forall k :: i <= k < e ==> !ClosesAt(t, k)
    ensures FirstClose(t, i) == Some(e)
    decreases e - i
  {
    hide ClosesAt;
    if i < e {
      FirstCloseIs(t, i + 1, e);
    }
  }

  lemma {:induction false} SearchIs(t: Str, i: nat, m: nat)
    requires i <= m <= |t| && MatchAt(t, m).Some? && forall k :: i <= k < m ==> MatchAt(t, k).None?
    ensures Search(t, i) == MatchAt(t, m)
    decreases m - i
  {
    hide MatchAt;
    if i < m {
      SearchIs(t, i + 1, m);
    }
  }

  lemma {:induction false} SearchFails(t: Str, i: nat)
    requires i <= |t| && forall k :: i <= k <= |t| ==> MatchAt(t, k).None?
    ensures Search(t, i).None?
    decreases |t| - i
  {
    hide MatchAt;
    if i < |t| {
      SearchFails(t, i + 1);
    }
  }

  ghost predicate NoFence(t: Str) {
    forall i :: 0 <= i <= |t| ==> !FenceAt(t, i)
  }

  lemma SliceOfSlice(t: Str, low: nat, high: nat, a: nat, b: nat)
    requires low <= high <= |t| && a <= b <= high - low
    ensures t[low..high][a..b] == t[low + a..low + b]
  {
    var u, v := t[low..high][a..b], t[low + a..low + b];
    assert |u| == |v| && forall k :: 0 <= k < |u| ==> u[k] == v[k];
  }

  lemma SliceInside(x: Str, obj: Str, y: Str, a: nat, b: nat)
    requires a <= b <= |obj|
    ensures (x + obj + y)[|x| + a..|x| + b] == obj[a..b]
  {
  }

  ghost predicate BracedSlice(content: Str, a: nat, b: nat, s: Str) {
    a < b < |content| && content[a] == OPEN && content[b] == CLOSE && s == content[a..b + 1]
  }

  /** Every candidate is a contiguous slice of the content, from an opening to a closing brace. */
  lemma CandidateIsSlice(content: Str)
    requires ExtractJson(content).Some?
    ensures exists a, b :: BracedSlice(content, a, b, ExtractJson(content).value)
  {
    hide Locate;
    var low := SkipSpaces(content, 0);
    var high := TrimEnd(content, low);
    var g := Locate(content[low..high]).value;
    SliceOfSlice(content, low, high, g.start, g.end + 1);
    assert BracedSlice(content, low + g.start, low + g.end, ExtractJson(content).value);
  }

  /** An object text: braces at both ends. */
  ghost predicate Braced(obj: Str) {
    |obj| >= 2 && obj[0] == OPEN && obj[|obj| - 1] == CLOSE
  }

  /** The head of a fence: three backticks, `json` in any letter case or nothing, and any whitespace. */
  predicate Opens(head: Str) {
    FenceAt(head, 0) && SkipSpaces(head, if JsonWordAt(head, 3) then 7 else 3) == |head|
  }

  /** The tail of a fence: any whitespace and three backticks. */
  predicate Closes(tail: Str) {
    FenceAt(tail, SkipSpaces(tail, 0)) && |tail| == SkipSpaces(tail, 0) + 3
  }

  /** No brace before the last one is followed by whitespace and a fence. */
  ghost predicate NoInnerClose(obj: Str) {
    forall e :: 1 <= e < |obj| - 1 ==> !ClosesAt(obj, e)
  }

  lemma {:induction false} SkipSpacesWithin(t: Str, x: Str, obj: Str, y: Str, i: nat)
    requires t == x + obj + y && i <= |obj| && SkipSpaces(obj, i) < |obj|
    ensures SkipSpaces(t, |x| + i) == |x| + SkipSpaces(obj, i)
    decreases |obj| - i
  {
    assert i < |obj| ==> t[|x| + i] == obj[i];
    if i < |obj| && IsSpace(obj[i]) {
      SkipSpacesWithin(t, x, obj, y, i + 1);
    }
  }

  lemma SpacesEndInside(obj: Str, i: nat)
    requires Braced(obj) && i < |obj|
    ensures SkipSpaces(obj, i) < |obj|
  {
    assert !IsSpace(obj[|obj| - 1]);
  }

  /** Closing braces inside the object are the same in the whole text. */
  lemma InnerClosesAgree(t: Str, x: Str, obj: Str, y: Str, e: nat)
    requires t == x + obj + y && Braced(obj) && e < |obj| - 1
    ensures ClosesAt(t, |x| + e) <==> ClosesAt(obj, e)
  {
    SpacesEndInside(obj, e + 1);
    SkipSpacesWithin(t, x, obj, y, e + 1);
    FencesAgree(t, x, obj, y, SkipSpaces(obj, e + 1));
    assert t[|x| + e] == obj[e];
  }

  lemma FencesAgree(t: Str, x: Str, obj: Str, y: Str, p: nat)
    requires t == x + obj + y && Braced(obj) && p < |obj|
    ensures FenceAt(t, |x| + p) <==> FenceAt(obj, p)
  {
    assert forall k :: 0 <= k < |obj| ==> obj[k] == t[|x| + k];
  }

  lemma Within(t: Str, x: Str, m: Str, y: Str)
    requires t == x + m + y
    ensures |x| + |m| <= |t| && forall k :: 0 <= k < |m| ==> t[|x| + k] == m[k]
  {
  }

  lemma LastCloses(t: Str, x: Str, obj: Str, tail: Str, y: Str)
    requires t == x + obj + (tail + y) && Braced(obj) && Closes(tail)
    ensures ClosesAt(t, |x| + |obj| - 1)
  {
    var n := |x| + |obj|;
    Within(t, x, obj, tail + y);
    assert t[|x| + (|obj| - 1)] == CLOSE;
    TailFollows(t, x + obj, tail, y);
  }

  lemma TailFollows(t: Str, x: Str, tail: Str, y: Str)
    requires t == x + (tail + y) && Closes(tail)
    ensures FenceAt(t, SkipSpaces(t, |x|))
  {
    var p := SkipSpaces(tail, 0);
    assert t == x + tail + y;
    SkipSpacesWithin(t, x, tail, y, 0);
    FenceWithin(t, x, tail, y, p);
  }

  lemma FenceWithin(t: Str, x: Str, m: Str, y: Str, p: nat)
    requires t == x + m + y && FenceAt(m, p)
    ensures FenceAt(t, |x| + p)
  {
    Within(t, x, m, y);
    assert t[|x| + p] == TICK && t[|x| + (p + 1)] == TICK && t[|x| + (p + 2)] == TICK;
  }

  /** Before the fence no match can start: overlapping backticks are followed by a backtick. */
  lemma NoEarlierMatch(t: Str, x: Str, i: nat)
    requires x <= t && NoFence(x) && FenceAt(t, |x|) && i < |x|
    ensures MatchAt(t, i).None?
  {
    if i + 3 <= |x| {
      FenceInPrefix(x, t, i);
    } else if FenceAt(t, i) {
      assert t[i + 3] == TICK;
      assert SkipSpaces(t, i + 3) == i + 3;
    }
  }

  lemma FenceInPrefix(x: Str, t: Str, i: nat)
    requires x <= t && i + 3 <= |x|
    ensures FenceAt(x, i) <==> FenceAt(t, i)
  {
  }

  lemma WordWithin(t: Str, x: Str, head: Str, y: Str)
    requires t == x + head + y && |head| >= 3 && y != [] && y[0] == OPEN
    requires !JsonWordAt(head, 3) ==> forall k :: 3 <= k < |head| ==> IsSpace(head[k])
    ensures JsonWordAt(t, |x| + 3) <==> JsonWordAt(head, 3)
  {
    Within(t, x, head, y);
    if JsonWordAt(head, 3) {
      assert t[|x| + (3 + 0)] == head[3] && t[|x| + (3 + 1)] == head[4];
      assert t[|x| + (3 + 2)] == head[5] && t[|x| + (3 + 3)] == head[6];
    } else if |head| == 3 {
      assert t[|x| + |head|] == OPEN;
    } else {
      assert t[|x| + 3] == head[3];
    }
  }

  lemma SpacesWithin(t: Str, n: nat, head: Str, k: nat)
    requires n + |head| <= |t| && forall i :: 0 <= i < |head| ==> t[n + i] == head[i]
    requires forall i :: k <= i < |head| ==> IsSpace(head[i])
    ensures forall i :: n + k <= i < n + |head| ==> IsSpace(t[i])
  {
    hide IsSpace;
    forall i | n + k <= i < n + |head| ensures IsSpace(t[i]) {
      assert t[n + (i - n)] == head[i - n];
    }
  }

  /** The first position from `i` on without whitespace, when it is known. */
  lemma SkipSpacesTo(t: Str, i: nat, j: nat)
    requires i <= j < |t| && !IsSpace(t[j]) && forall k :: i <= k < j ==> IsSpace(t[k])
    ensures SkipSpaces(t, i) == j
  {
  }

  function WordEnd(head: Str): nat {
    if JsonWordAt(head, 3) then 7 else 3
  }

  lemma OpensShape(head: Str)
    requires Opens(head)
    ensures FenceAt(head, 0) && 3 <= WordEnd(head) <= |head|
    ensures forall i :: WordEnd(head) <= i < |head| ==> IsSpace(head[i])
    ensures !JsonWordAt(head, 3) ==> forall i :: 3 <= i < |head| ==> IsSpace(head[i])
  {
  }

  lemma GroupStarts(t: Str, n: nat, word: nat, brace: nat)
    requires FenceAt(t, n) && word == n + (if JsonWordAt(t, n + 3) then 7 else 3) <= brace < |t|
    requires t[brace] == OPEN && forall i :: word <= i < brace ==> IsSpace(t[i])
    ensures GroupStart(t, n) == Some(brace)
  {
    hide IsSpace, JsonWordAt, FenceAt;
    BraceNoSpace();
    SkipSpacesTo(t, word, brace);
  }

  lemma HeadOpensGroup(t: Str, x: Str, head: Str, rest: Str)
    requires t == x + head + rest && Opens(head) && rest != [] && rest[0] == OPEN
    ensures FenceAt(t, |x|) && GroupStart(t, |x|) == Some(|x| + |head|)
  {
    hide SkipSpaces, IsSpace, JsonWordAt, FenceAt, Opens, GroupStart;
    var n, m := |x|, |head|;
    OpensShape(head);
    FenceWithin(t, x, head, rest, 0);
    WordWithin(t, x, head, rest);
    Within(t, x, head, rest);
    assert t[n + m] == OPEN;
    SpacesWithin(t, n, head, WordEnd(head));
    GroupStarts(t, n, n + WordEnd(head), n + m);
  }

  lemma BraceNoSpace()
    ensures !IsSpace(123) && !IsSpace(125) && OPEN == 123 && CLOSE == 125
  {
  }

  /** A group opened at `n` is the leftmost match and ends at the first closing brace in sight. */
  lemma FencedFound(t: Str, x: Str, start: nat, e: nat)
    requires x <= t && NoFence(x) && FenceAt(t, |x|) && GroupStart(t, |x|) == Some(start)
    requires start < e < |t| && ClosesAt(t, e)
    requires forall k :: start < k < e ==> !ClosesAt(t, k)
    ensures Search(t, 0) == Some(Group(start, e))
  {
    hide ClosesAt, GroupStart;
    forall i | 0 <= i < |x| ensures MatchAt(t, i).None? {
      NoEarlierMatch(t, x, i);
    }
    FirstCloseIs(t, start + 1, e);
    SearchIs(t, 0, |x|);
  }

  /** Where the group around the object ends: at its first inner closing brace, else at its last one. */
  ghost predicate ClosesFirst(obj: Str, e: nat) {
    && 1 <= e < |obj| && (e == |obj| - 1 || ClosesAt(obj, e))
    && forall k :: 1 <= k < e ==> !ClosesAt(obj, k)
  }

  lemma {:induction false} FirstInnerClose(obj: Str, i: nat) returns (e: nat)
    requires Braced(obj) && 1 <= i < |obj|
    ensures i <= e < |obj| && (e == |obj| - 1 || ClosesAt(obj, e)) && forall k :: i <= k < e ==> !ClosesAt(obj, k)
    decreases |obj| - i
  {
    if i == |obj| - 1 || ClosesAt(obj, i) {
      e := i;
    } else {
      e := FirstInnerClose(obj, i + 1);
    }
  }

  lemma FencedEnd(t: Str, x: Str, obj: Str, tail: Str, y: Str, e: nat)
    requires t == x + obj + (tail + y) && Braced(obj) && Closes(tail) && ClosesFirst(obj, e)
    ensures |x| + e < |t| && ClosesAt(t, |x| + e)
    ensures forall k :: |x| < k < |x| + e ==> !ClosesAt(t, k)
    ensures t[|x|..|x| + e + 1] == obj[0..e + 1]
  {
    hide ClosesAt, Closes;
    if e == |obj| - 1 {
      LastCloses(t, x, obj, tail, y);
    } else {
      InnerClosesAgree(t, x, obj, tail + y, e);
    }
    forall k | |x| < k < |x| + e ensures !ClosesAt(t, k) {
      InnerClosesAgree(t, x, obj, tail + y, k - |x|);
    }
    SliceInside(x, obj, tail + y, 0, e + 1);
  }

  lemma InnerPositive(obj: Str, e: nat)
    requires ClosesFirst(obj, e)
    ensures e > 0
  {
  }

  lemma FencedParts(t: Str, x: Str, head: Str, start: Str, obj: Str, tail: Str, y: Str, rest: Str, follow: Str, e: nat)
    requires NoFence(x) && Opens(head) && Braced(obj) && Closes(tail) && ClosesFirst(obj, e)
    requires start == x + head && rest == tail + y
    requires t == start + obj + rest && t == start + follow && x <= t && follow != [] && follow[0] == OPEN
    ensures Search(t, 0) == Some(Group(|start|, |start| + e))
    ensures |start| + e < |t| && t[|start|..|start| + e + 1] == obj[0..e + 1]
  {
    hide *;
    FencedEnd(t, start, obj, tail, y, e);
    HeadOpensGroup(t, x, head, follow);
    InnerPositive(obj, e);
    FencedFound(t, x, |start|, |start| + e);
  }

  lemma ExtractsGroup(content: Str, text: Str, g: Group)
    requires Strip(content) == text && Search(text, 0) == Some(g)
    ensures g.end < |text| && ExtractJson(content) == Some(text[g.start..g.end + 1])
  {
    hide Search, Strip;
  }

  /** Stripping cuts into the prefix and the suffix only. */
  lemma StripAround(content: Str, prefix: Str, middle: Str, suffix: Str) returns (x: Str, y: Str)
    requires content == prefix + middle + suffix && middle != []
    requires !IsSpace(middle[0]) && !IsSpace(middle[|middle| - 1])
    ensures Strip(content) == x + middle + y
    ensures |x| <= |prefix| && x == prefix[|prefix| - |x|..]
    ensures |y| <= |suffix| && y == suffix[..|y|]
  {
    var low := SkipSpaces(content, 0);
    var high := TrimEnd(content, low);
    var p, q := |prefix|, |prefix| + |middle|;
    assert content[p] == middle[0] && content[q - 1] == middle[|middle| - 1];
    assert low <= p && q <= high;
    x, y := prefix[low..], suffix[..high - q];
    assert Strip(content) == content[low..high] == x + middle + y;
  }

  lemma NoFenceInTail(t: Str, low: nat)
    requires NoFence(t) && low <= |t|
    ensures NoFence(t[low..])
  {
    forall i | 0 <= i <= |t| - low ensures !FenceAt(t[low..], i) {
      var k: nat := low + i;
      assert FenceAt(t[low..], i) ==> FenceAt(t, k);
    }
  }

  /** From any fence around `obj`, after any prefix without a fence and before any suffix, comes `obj`
      up to its first closing brace that only whitespace separates from a fence. */
  lemma FencedPartRecovered(prefix: Str, head: Str, obj: Str, tail: Str, suffix: Str, e: nat)
    requires NoFence(prefix) && Opens(head) && Braced(obj) && Closes(tail) && ClosesFirst(obj, e)
    ensures ExtractJson(prefix + (head + obj + tail) + suffix) == Some(obj[..e + 1])
  {
    hide *;
    var content := prefix + (head + obj + tail) + suffix;
    var x, y := StripFence(prefix, head, obj, tail, suffix);
    var text := Strip(content);
    var start, rest := x + head, tail + y;
    Regroup(text, x, head, obj, tail, y, start, rest, obj + rest);
    FencedParts(text, x, head, start, obj, tail, y, rest, obj + rest, e);
    ExtractsGroup(content, text, Group(|start|, |start| + e));
    WholeFirst(obj, e);
  }

  lemma Regroup(t: Str, x: Str, head: Str, obj: Str, tail: Str, y: Str, start: Str, rest: Str, follow: Str)
    requires t == x + (head + obj + tail) + y && Braced(obj)
    requires start == x + head && rest == tail + y && follow == obj + rest
    ensures t == start + obj + rest && t == start + follow && x <= t && follow != [] && follow[0] == OPEN
  {
  }

  lemma WholeFirst(obj: Str, e: nat)
    requires ClosesFirst(obj, e)
    ensures e < |obj| && obj[0..e + 1] == obj[..e + 1]
    ensures obj[..e + 1] == obj <==> NoInnerClose(obj)
  {
    assert |obj[..e + 1]| == e + 1;
  }

  /** So exactly `obj` comes back iff no earlier brace of it is followed by whitespace and a fence. */
  lemma FencedObjectRecovered(prefix: Str, head: Str, obj: Str, tail: Str, suffix: Str)
    requires NoFence(prefix) && Opens(head) && Braced(obj) && Closes(tail)
    ensures ExtractJson(prefix + (head + obj + tail) + suffix) == Some(obj) <==> NoInnerClose(obj)
  {
    hide ExtractJson, NoInnerClose, NoFence, Opens, Closes;
    var e := FirstInnerClose(obj, 1);
    FencedPartRecovered(prefix, head, obj, tail, suffix, e);
    WholeFirst(obj, e);
  }

  /** The JSON object `{"s":"} ```"}`. */
  const FENCE_INSIDE: Str := [123, 34, 115, 34, 58, 34, 125, 32, 96, 96, 96, 34, 125]

  lemma ClosesInside()
    ensures Braced(FENCE_INSIDE) && ClosesFirst(FENCE_INSIDE, 6) && |FENCE_INSIDE| == 13
  {
    var obj := FENCE_INSIDE;
    assert SkipSpaces(obj, 7) == SkipSpaces(obj, 8) == 8;
    assert ClosesAt(obj, 6);
  }

  /** A json fence on its own lines. */
  const HEAD: Str := [96, 96, 96, 106, 115, 111, 110, 10]
  const TAIL: Str := [10, 96, 96, 96]

  lemma OwnLines()
    ensures Opens(HEAD) && Closes(TAIL)
  {
    assert SkipSpaces(HEAD, 7) == SkipSpaces(HEAD, 8) == 8;
    assert SkipSpaces(TAIL, 0) == SkipSpaces(TAIL, 1) == 1;
  }

  /** It is cut off inside its string: what comes back is `{"s":"}`, which is no JSON object. */
  lemma FencedObjectCutOff()
    ensures Braced(FENCE_INSIDE)
    ensures ExtractJson([] + (HEAD + FENCE_INSIDE + TAIL) + []) == Some(FENCE_INSIDE[..7])
  {
    hide *;
    ClosesInside();
    NoFenceInEmpty();
    OwnLines();
    FencedPartRecovered([], HEAD, FENCE_INSIDE, TAIL, [], 6);
  }

  lemma NoFenceInEmpty()
    ensures NoFence([])
  {
  }

  lemma StripFence(prefix: Str, head: Str, obj: Str, tail: Str, suffix: Str) returns (x: Str, y: Str)
    requires NoFence(prefix) && Opens(head) && Closes(tail)
    ensures NoFence(x)
    ensures Strip(prefix + (head + obj + tail) + suffix) == x + (head + obj + tail) + y
  {
    hide Strip, SkipSpaces;
    var middle := head + obj + tail;
    TicksAtEnds(head, obj, tail);
    x, y := StripAround(prefix + middle + suffix, prefix, middle, suffix);
    NoFenceInTail(prefix, |prefix| - |x|);
  }

  lemma TicksAtEnds(head: Str, obj: Str, tail: Str)
    requires Opens(head) && Closes(tail)
    ensures var middle := head + obj + tail;
      middle != [] && !IsSpace(middle[0]) && !IsSpace(middle[|middle| - 1])
  {
    hide SkipSpaces;
    var middle := head + obj + tail;
    assert middle[0] == head[0] == TICK;
    assert middle[|middle| - 1] == tail[|tail| - 1] == TICK;
  }

  /** In particular an object without a triple backtick is always recovered. */
  lemma FenceFreeObjectRecovered(prefix: Str, head: Str, obj: Str, tail: Str, suffix: Str)
    requires NoFence(prefix) && Opens(head) && Braced(obj) && Closes(tail) && NoFence(obj)
    ensures ExtractJson(prefix + (head + obj + tail) + suffix) == Some(obj)
  {
    hide ExtractJson, Opens, Closes;
    FencedObjectRecovered(prefix, head, obj, tail, suffix);
  }

  lemma OutermostBraces(t: Str, x: Str, obj: Str, y: Str)
    requires t == x + obj + y && Braced(obj) && OPEN !in x && CLOSE !in y
    ensures Find(t, OPEN, 0) == Some(|x|)
    ensures RFind(t, CLOSE, |t|) == Some(|x| + |obj| - 1)
  {
    assert t[|x|] == obj[0] && t[|x| + |obj| - 1] == obj[|obj| - 1];
    forall k | 0 <= k < |x| ensures t[k] != OPEN {
      assert t[k] == x[k];
    }
    forall k | |x| + |obj| <= k < |t| ensures t[k] != CLOSE {
      assert t[k] == y[k - |x| - |obj|];
    }
  }

  /** Where no fence matches, the object is recovered from any prefix without an opening and any
      suffix without a closing brace. */
  lemma BareObjectRecovered(prefix: Str, obj: Str, suffix: Str)
    requires Braced(obj) && OPEN !in prefix && CLOSE !in suffix
    requires Search(Strip(prefix + obj + suffix), 0).None?
    ensures ExtractJson(prefix + obj + suffix) == Some(obj)
  {
    var x, y := StripAround(prefix + obj + suffix, prefix, obj, suffix);
    var text := Strip(prefix + obj + suffix);
    OutermostBraces(text, x, obj, y);
    assert text[|x|..|x| + |obj|] == obj;
  }

  /** A text without a triple backtick has no fence match. */
  lemma NoFenceNoMatch(content: Str)
    requires NoFence(content)
    ensures Search(Strip(content), 0).None?
  {
    var text := Strip(content);
    var low := SkipSpaces(content, 0);
    forall m | 0 <= m <= |text| ensures MatchAt(text, m).None? {
      var k: nat := low + m;
      assert FenceAt(text, m) ==> FenceAt(content, k);
    }
    SearchFails(text, 0);
  }

  /** So in a text without a triple backtick the object is recovered from such a prefix and suffix. */
  lemma FenceFreeBareObjectRecovered(prefix: Str, obj: Str, suffix: Str)
    requires Braced(obj) && OPEN !in prefix && CLOSE !in suffix && NoFence(prefix + obj + suffix)
    ensures ExtractJson(prefix + obj + suffix) == Some(obj)
  {
    hide ExtractJson, Search, Strip;
    NoFenceNoMatch(prefix + obj + suffix);
    BareObjectRecovered(prefix, obj, suffix);
  }

  // ---------- Any text without a fence, and accepted reports ----------

  /** The first `{` and the last `}` of a text. */
  ghost predicate Outermost(content: Str, start: int, end: int) {
    && 0 <= start < |content| && content[start] == 123 && (forall k :: 0 <= k < start ==> content[k] != 123)
    && 0 <= end < |content| && content[end] == 125 && (forall k :: end < k < |content| ==> content[k] != 125)
  }

  /** From a text without three backticks comes everything between its first `{` and its last `}`; it
      fails if one is missing or the last `}` comes before the first `{`. */
  lemma UnfencedExact(content: Str)
    requires NoFence(content)
    ensures forall start, end :: Outermost(content, start, end) && start < end ==>
      ExtractJson(content) == Some(content[start..end + 1])
    ensures ExtractJson(content).Some? ==> exists start, end :: Outermost(content, start, end) && start < end
  {
    hide *;
    var low, high := StripBounds(content);
    var text := content[low..high];
    NoFenceNoMatch(content);
    forall start, end | Outermost(content, start, end) && start < end
      ensures 0 <= start < end < |content| && ExtractJson(content) == Some(content[start..end + 1])
    {
      OutermostWithin(content, low, high, start, end);
      FoundOutermost(text, start - low, end - low);
      LocatedExtracts(content, low, high, start - low, end - low);
    }
    if ExtractJson(content).Some? {
      var start, end := ExtractedOutermost(content, low, high);
    }
  }

  lemma StripBounds(content: Str) returns (low: nat, high: nat)
    ensures low <= high <= |content| && Strip(content) == content[low..high]
    ensures forall k :: 0 <= k < low || high <= k < |content| ==> IsSpace(content[k])
  {
    low := SkipSpaces(content, 0);
    high := TrimEnd(content, low);
  }

  lemma LocatedExtracts(content: Str, low: nat, high: nat, a: nat, b: nat)
    requires low <= high <= |content| && Strip(content) == content[low..high]
    requires a < b < high - low && Locate(content[low..high]) == Some(Group(a, b))
    ensures ExtractJson(content) == Some(content[low + a..low + b + 1])
  {
    hide Locate, Strip;
    SliceOfSlice(content, low, high, a, b + 1);
  }

  lemma ExtractedOutermost(content: Str, low: nat, high: nat) returns (start: int, end: int)
    requires low <= high <= |content| && Strip(content) == content[low..high]
    requires forall k :: 0 <= k < low || high <= k < |content| ==> IsSpace(content[k])
    requires Search(Strip(content), 0).None? && ExtractJson(content).Some?
    ensures Outermost(content, start, end) && start < end
  {
    hide Search, Strip, IsSpace;
    var text := content[low..high];
    start, end := low + Find(text, OPEN, 0).value, low + RFind(text, CLOSE, |text|).value;
    assert forall k :: 0 <= k < |text| ==> text[k] == content[low + k];
    assert start != end;
    BraceNoSpace();
    forall k | 0 <= k < start ensures content[k] != 123 {
      assert k >= low ==> text[k - low] == content[k];
    }
    forall k | end < k < |content| ensures content[k] != 125 {
      assert k < high ==> text[k - low] == content[k];
    }
  }

  lemma OutermostWithin(content: Str, low: nat, high: nat, start: int, end: int)
    requires low <= high <= |content| && Outermost(content, start, end) && start < end
    requires forall k :: 0 <= k < low || high <= k < |content| ==> IsSpace(content[k])
    ensures low <= start < end < high && Outermost(content[low..high], start - low, end - low)
  {
    hide IsSpace;
    BraceNoSpace();
    assert !IsSpace(content[start]) && !IsSpace(content[end]);
    assert forall k :: 0 <= k < high - low ==> content[low..high][k] == content[low + k];
  }

  lemma FoundOutermost(text: Str, start: int, end: int)
    requires Outermost(text, start, end) && start < end && Search(text, 0).None?
    ensures Locate(text) == Some(Group(start, end))
  {
    hide Search;
  }

  /** A head of backticks, a word and whitespace. */
  lemma HeadOpens(head: Str, word: nat)
    requires FenceAt(head, 0) && word == WordEnd(head) <= |head|
    ensures (forall i :: word <= i < |head| ==> IsSpace(head[i])) <==> Opens(head)
  {
    hide FenceAt, IsSpace, JsonWordAt;
  }

  /** The word may be missing or `json` in any letter case, directly after the backticks. */
  lemma FenceHeads()
    ensures Opens(Text("```")) && Opens(Text("```json\n")) && Opens(Text("``` \r\n"))
    ensures Opens([96, 96, 96, 106, 0x17F, 111, 110])
    ensures Opens(Text("```JSON")) && !Opens(Text("```python\n")) && !Opens(Text("``` json"))
  {
    hide SkipSpaces, Opens;
    HeadOpens(Text("```"), 3);
    HeadOpens(Text("```json\n"), 7);
    HeadOpens(Text("``` \r\n"), 3);
    HeadOpens(Text("```JSON"), 7);
    HeadOpens([96, 96, 96, 106, 0x17F, 111, 110], 7);
    HeadOpens(Text("```python\n"), 3);
    HeadOpens(Text("``` json"), 3);
    assert !IsSpace(Text("```python\n")[3]) && !IsSpace(Text("``` json")[4]);
  }
}
