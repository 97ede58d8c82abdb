/** Tool calls of one LLM turn and the dependency relation between the tools they name. */
module Dependencies {

  /** One tool call. Two calls are told apart by their position in the batch, as the source does by object identity. */
  datatype Call = Call(id: string, name: string, args: map<string, string>)

  /** What running a tool yields. */
  datatype ToolOutcome = Returned(text: string) | Raised(error: string)

  type Deps = map<string, seq<string>>

  function DepsOf(deps: Deps, name: string): seq<string> {
    if name in deps then deps[name] else []
  }

  function Names(calls: seq<Call>): set<string> {
    set c | c in calls :: c.name
  }

  /** The elements of `s` that are in `keep`, in order: the list comprehensions of both schedulers. */
  function Select<T(==, !new)>(s: seq<T>, keep: set<T>): (r: seq<T>)
    ensures forall x :: x in r <==> x in s && x in keep
    ensures |r| <= |s|
    ensures (exists x :: x in s && x !in keep) ==> |r| < |s|
  {
    if s == [] then []
    else
      var front, last := s[..|s| - 1], s[|s| - 1];
      var rest := Select(front, keep);
      assert s == front + [last];
      if last in keep then rest + [last] else rest
  }

  lemma {:induction false} SelectSelect<T(!new)>(s: seq<T>, a: set<T>, b: set<T>)
    ensures Select(Select(s, a), b) == Select(s, a * b)
  {
    if s != [] {
      var front, last := s[..|s| - 1], s[|s| - 1];
      SelectSelect(front, a, b);
      assert last in a ==> (Select(front, a) + [last])[..|Select(front, a)|] == Select(front, a);
    }
  }

  /** A chain of called tools: every name is a dependency of the one after it. */
  ghost predicate IsChain(called: set<string>, deps: Deps, p: seq<string>) {
    && |p| > 0
    && (forall i :: 0 <= i < |p| ==> p[i] in called)
    && (forall i, j :: 0 <= i < |p| - 1 && j == i + 1 ==> p[i] in DepsOf(deps, p[j]))
  }

  ghost predicate ChainTo(called: set<string>, deps: Deps, p: seq<string>, name: string) {
    IsChain(called, deps, p) && p[|p| - 1] == name
  }

  ghost predicate IsCycle(called: set<string>, deps: Deps, p: seq<string>) {
    |p| >= 2 && IsChain(called, deps, p) && p[0] == p[|p| - 1]
  }

  ghost predicate Cyclic(called: set<string>, deps: Deps) {
    exists p :: IsCycle(called, deps, p)
  }

  /** A sequence longer than the set its elements come from repeats an element. */
  lemma {:induction false} Pigeonhole(p: seq<string>, s: set<string>) returns (i: nat, j: nat)
    requires forall x :: x in p ==> x in s
    requires |p| > |s|
    ensures i < j < |p| && p[i] == p[j]
  {
    var x := p[0];
    if x in p[1..] {
      j :| 1 <= j < |p| && p[j] == x;
      i := 0;
    } else {
      i, j := Pigeonhole(p[1..], s - {x});
      i, j := i + 1, j + 1;
    }
  }

  /** `n` has a dependency inside `s`. */
  ghost predicate Blocked(deps: Deps, s: set<string>, n: string) {
    exists d :: d in DepsOf(deps, n) && d in s
  }

  /** If every name of a non-empty set has a dependency inside the set, the set holds a cycle. */
  lemma {:induction false} BlockedSetHasCycle(called: set<string>, deps: Deps, s: set<string>)
    requires s != {} && s <= called
    requires forall n {:trigger Blocked(deps, s, n)} :: n in s ==> Blocked(deps, s, n)
    ensures Cyclic(called, deps)
  {
    var p := WalkBack(called, deps, s, |s|);
    var i, j := Pigeonhole(p, s);
    assert IsCycle(called, deps, p[i..j + 1]);
  }

  lemma {:induction false} WalkBack(called: set<string>, deps: Deps, s: set<string>, m: nat) returns (p: seq<string>)
    requires s != {} && s <= called
    requires forall n {:trigger Blocked(deps, s, n)} :: n in s ==> Blocked(deps, s, n)
    ensures IsChain(called, deps, p) && |p| == m + 1 && forall x :: x in p ==> x in s
  {
    if m == 0 {
      var n :| n in s;
      p := [n];
    } else {
      var q := WalkBack(called, deps, s, m - 1);
      assert q[0] in s && Blocked(deps, s, q[0]);
      var d :| d in DepsOf(deps, q[0]) && d in s;
      p := [d] + q;
    }
  }
}
