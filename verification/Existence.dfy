/** The sweep that finds the records whose files are gone, whatever order the checks finish in. */
module Existence {

  datatype PathPresence = Present | Missing | Indeterminate

  datatype MissingPaths = MissingPaths(missingIds: seq<string>, indeterminateCount: nat)

  /** What the check of one record answered. */
  datatype Answer = Answer(id: string, presence: PathPresence)

  // --------------------------------------------------------------------------- sorting

  /** The order of strings, by their characters. */
  predicate AtMost(a: string, b: string) {
    if a == [] then true
    else if b == [] then false
    else a[0] < b[0] || (a[0] == b[0] && AtMost(a[1..], b[1..]))
  }

  ghost predicate Sorted(s: seq<string>) {
    forall i, j :: 0 <= i < j < |s| ==> AtMost(s[i], s[j])
  }

  lemma {:induction false} OrderIsTotal(a: string, b: string)
    ensures AtMost(a, b) || AtMost(b, a)
    ensures AtMost(a, b) && AtMost(b, a) ==> a == b
  {
    if a != [] && b != [] && a[0] == b[0] {
      OrderIsTotal(a[1..], b[1..]);
      assert a == [a[0]] + a[1..] && b == [b[0]] + b[1..];
    }
  }

  lemma {:induction false} OrderIsTransitive(a: string, b: string, c: string)
    requires AtMost(a, b) && AtMost(b, c)
    ensures AtMost(a, c)
  {
    if a != [] && a[0] == b[0] == c[0] {
      OrderIsTransitive(a[1..], b[1..], c[1..]);
    }
  }

  /** One string comes before another that it starts, or that has the greater character where they first
      differ. */
  lemma {:induction false} OrderIs(a: string, b: string, n: nat)
    requires n <= |a| && n <= |b| && a[..n] == b[..n]
    ensures n == |a| ==> AtMost(a, b)
    ensures n == |b| < |a| ==> !AtMost(a, b)
    ensures n < |a| && n < |b| && a[n] < b[n] ==> AtMost(a, b)
    ensures n < |a| && n < |b| && a[n] > b[n] ==> !AtMost(a, b)
    decreases n
  {
    if n > 0 {
      assert a[0] == a[..n][0] == b[..n][0] == b[0];
      assert a[1..][..n - 1] == a[..n][1..] == b[..n][1..] == b[1..][..n - 1];
      OrderIs(a[1..], b[1..], n - 1);
    }
  }

  /** A sorted sequence is determined by its contents. */
  lemma {:induction false} SortedIsUnique(s: seq<string>, t: seq<string>)
    requires Sorted(s) && Sorted(t) && multiset(s) == multiset(t)
    ensures s == t
  {
    assert |s| == |multiset(s)| == |multiset(t)| == |t|;
    if s != [] {
      FirstsAgree(s, t);
      assert s == [s[0]] + s[1..] && t == [t[0]] + t[1..];
      assert multiset(s[1..]) == multiset(s) - multiset{s[0]};
      assert multiset(t[1..]) == multiset(t) - multiset{t[0]};
      SortedIsUnique(s[1..], t[1..]);
    }
  }

  lemma FirstsAgree(s: seq<string>, t: seq<string>)
    requires Sorted(s) && Sorted(t) && multiset(s) == multiset(t) && s != [] && t != []
    ensures s[0] == t[0]
  {
    FirstAtMost(s, t);
    FirstAtMost(t, s);
    OrderIsTotal(s[0], t[0]);
  }

  lemma FirstAtMost(s: seq<string>, t: seq<string>)
    requires Sorted(s) && multiset(s) == multiset(t) && s != [] && t != []
    ensures AtMost(s[0], t[0])
  {
    assert t[0] in multiset(s);
    var i :| 0 <= i < |s| && s[i] == t[0];
    OrderIsTotal(s[0], s[0]);
  }

  /** Putting an id in its place. */
  function Insert(s: seq<string>, id: string): (r: seq<string>)
    requires Sorted(s)
    ensures Sorted(r) && multiset(r) == multiset(s) + multiset{id}
  {
    if s == [] then [id]
    else if AtMost(id, s[0]) then
      FirstIsLeast(id, s);
      [id] + s
    else
      OrderIsTotal(id, s[0]);
      assert s == [s[0]] + s[1..];
      var rest := Insert(s[1..], id);
      StillLeast(s, id, rest);
      [s[0]] + rest
  }

  lemma FirstIsLeast(id: string, s: seq<string>)
    requires Sorted(s) && s != [] && AtMost(id, s[0])
    ensures Sorted([id] + s)
  {
    forall k | 0 < k < |s| ensures AtMost(id, s[k]) {
      OrderIsTransitive(id, s[0], s[k]);
    }
  }

  lemma StillLeast(s: seq<string>, id: string, rest: seq<string>)
    requires Sorted(s) && s != [] && AtMost(s[0], id) && Sorted(rest)
    requires multiset(rest) == multiset(s[1..]) + multiset{id}
    ensures Sorted([s[0]] + rest)
  {
    forall k | 0 <= k < |rest| ensures AtMost(s[0], rest[k]) {
      assert rest[k] in multiset(rest);
      if rest[k] != id {
        assert rest[k] in multiset(s[1..]);
        var j :| 0 <= j < |s[1..]| && s[1..][j] == rest[k];
        assert s[j + 1] == rest[k];
      }
    }
  }

  function Sort(s: seq<string>): (r: seq<string>)
    ensures Sorted(r) && multiset(r) == multiset(s)
  {
    if s == [] then []
    else
      assert s == s[..|s| - 1] + [s[|s| - 1]];
      Insert(Sort(s[..|s| - 1]), s[|s| - 1])
  }

  // ---------------------------------------------------------------------------- the sweep

  function MissingIds(results: seq<Answer>): seq<string> {
    if results == [] then []
    else
      var (before, last) := (MissingIds(results[..|results| - 1]), results[|results| - 1]);
      if last.presence == Missing then before + [last.id] else before
  }

  function IndeterminateCount(results: seq<Answer>): nat {
    if results == [] then 0
    else
      IndeterminateCount(results[..|results| - 1]) +
      if results[|results| - 1].presence == Indeterminate then 1 else 0
  }

  function Outcome(results: seq<Answer>): MissingPaths {
    MissingPaths(Sort(MissingIds(results)), IndeterminateCount(results))
  }

  /** `find_missing_paths`, once the checks have finished in this order. */
  method FindMissingPaths(results: seq<Answer>) returns (outcome: MissingPaths)
    ensures outcome == Outcome(results)
  {
    var missingIds := [];
    var indeterminateCount := 0;
    for i := 0 to |results|
      invariant missingIds == MissingIds(results[..i])
      invariant indeterminateCount == IndeterminateCount(results[..i])
    {
      assert results[..i + 1][..i] == results[..i];
      match results[i].presence {
        case Present =>
        case Missing => missingIds := missingIds + [results[i].id];
        case Indeterminate => indeterminateCount := indeterminateCount + 1;
      }
    }
    assert results[..|results|] == results;
    outcome := MissingPaths(Sort(missingIds), indeterminateCount);
  }

  /** How often each id was reported missing. */
  lemma {:induction false} MissingIdsCount(results: seq<Answer>, id: string)
    ensures multiset(MissingIds(results))[id] == multiset(results)[Answer(id, Missing)]
  {
    if results != [] {
      MissingIdsCount(results[..|results| - 1], id);
      assert results == results[..|results| - 1] + [results[|results| - 1]];
    }
  }

  /** The answers that could not tell. */
  ghost function Undecided(results: seq<Answer>): multiset<Answer> {
    if results == [] then multiset{}
    else
      var (before, last) := (Undecided(results[..|results| - 1]), results[|results| - 1]);
      if last.presence == Indeterminate then before + multiset{last} else before
  }

  lemma {:induction false} UndecidedCount(results: seq<Answer>, answer: Answer)
    ensures Undecided(results)[answer] == if answer.presence == Indeterminate then multiset(results)[answer] else 0
    ensures |Undecided(results)| == IndeterminateCount(results)
  {
    if results != [] {
      UndecidedCount(results[..|results| - 1], answer);
      assert results == results[..|results| - 1] + [results[|results| - 1]];
    }
  }

  /** Only the answers matter, not the order they came in: the ids are exactly those reported
      missing, sorted, and the count is that of the undecided answers. */
  lemma CompletionOrderDoesNotMatter(results: seq<Answer>, others: seq<Answer>)
    requires multiset(results) == multiset(others)
    ensures Outcome(results) == Outcome(others)
    ensures Sorted(Outcome(results).missingIds)
    ensures forall id :: multiset(Outcome(results).missingIds)[id] == multiset(results)[Answer(id, Missing)]
  {
    forall id ensures multiset(MissingIds(results))[id] == multiset(results)[Answer(id, Missing)]
      ensures multiset(MissingIds(others))[id] == multiset(results)[Answer(id, Missing)]
    {
      MissingIdsCount(results, id);
      MissingIdsCount(others, id);
    }
    assert multiset(MissingIds(results)) == multiset(MissingIds(others));
    SortedIsUnique(Sort(MissingIds(results)), Sort(MissingIds(others)));
    forall answer ensures Undecided(results)[answer] == Undecided(others)[answer] {
      UndecidedCount(results, answer);
      UndecidedCount(others, answer);
    }
    assert Undecided(results) == Undecided(others);
    UndecidedCount(results, Answer("", Present));
    UndecidedCount(others, Answer("", Present));
  }
}
