/** The executable region under concurrency: `global_allocate_executable` and the address
    classifiers.

    Code cache pages grow up from one end and gencode pages grow down from the other, and
    neither takes a lock: a request first moves its own end, atomically, and looks at the
    other end afterwards. */
module Region {

  datatype Where = CodeCache | GenCode | Wrapper

  /** A request after its atomic update: checked later, it returns or faults. */
  datatype Phase = Pending | Returned | Faulted

  datatype Request = Request(kind: Where, at: int, size: nat, phase: Phase) {
    function End(): int { at + size }
  }

  /** `GRANARY_EXEC_START` and the like are fixed; the three ends move. */
  datatype State = State(
    execStart: int, wrapperStart: int, execEnd: int,
    codeCacheEnd: int, genCodeStart: int, wrapperEnd: int,
    requests: map<nat, Request>)

  /** `init_code_cache` */
  ghost predicate Init(s: State) {
    && s.execStart <= s.wrapperStart <= s.execEnd
    && s.codeCacheEnd == s.execStart && s.wrapperEnd == s.genCodeStart == s.wrapperStart
    && s.requests == map[]
  }

  // ----- steps -----

  datatype Step = Update(id: nat, kind: Where, size: nat) | Check(id: nat)

  /** The fetch-and-add or sub-and-fetch of a new request. */
  ghost predicate DoUpdate(s: State, s': State, id: nat, kind: Where, size: nat) {
    && id !in s.requests
    && match kind {
         case CodeCache =>
           s' == s.(codeCacheEnd := s.codeCacheEnd + size,
                    requests := s.requests[id := Request(kind, s.codeCacheEnd, size, Pending)])
         case GenCode =>
           s' == s.(genCodeStart := s.genCodeStart - size,
                    requests := s.requests[id := Request(kind, s.genCodeStart - size, size, Pending)])
         case Wrapper =>
           s' == s.(wrapperEnd := s.wrapperEnd + size,
                    requests := s.requests[id := Request(kind, s.wrapperEnd, size, Pending)])
       }
  }

  /** The comparison that lets the request return. */
  predicate Passes(s: State, r: Request) {
    match r.kind
    case CodeCache => r.End() <= s.genCodeStart
    case GenCode => s.codeCacheEnd <= r.at
    case Wrapper => r.End() <= s.execEnd
  }

  ghost predicate DoCheck(s: State, s': State, id: nat) {
    && id in s.requests && s.requests[id].phase == Pending
    && var r := s.requests[id];
       s' == s.(requests := s.requests[id := r.(phase := if Passes(s, r) then Returned else Faulted)])
  }

  ghost predicate Next(s: State, s': State, step: Step) {
    match step
    case Update(id, kind, size) => DoUpdate(s, s', id, kind, size)
    case Check(id) => DoCheck(s, s', id)
  }

  /** A run of the region: any interleaving of any number of requests. */
  ghost predicate Run(states: seq<State>, steps: seq<Step>) {
    && |states| == |steps| + 1 && Init(states[0])
    && forall i :: 0 <= i < |steps| ==> Next(states[i], states[i + 1], steps[i])
  }

  // ----- invariant -----

  predicate Apart(a: Request, b: Request) { a.End() <= b.at || b.End() <= a.at }

  /** Requests of one kind are apart whatever their phase; once both have returned, code
      cache lies below gencode. */
  predicate PairValid(a: Request, b: Request) {
    && (a.kind == b.kind ==> Apart(a, b))
    && (a.kind == CodeCache && b.kind == GenCode && a.phase == b.phase == Returned ==> a.End() <= b.at)
  }

  predicate RequestValid(s: State, r: Request) {
    match r.kind
    case CodeCache =>
      && s.execStart <= r.at && r.End() <= s.codeCacheEnd && (r.phase == Returned ==> r.End() <= s.wrapperStart)
      && (r.phase == Faulted ==> s.genCodeStart < r.End())
    case GenCode =>
      && s.genCodeStart <= r.at && r.End() <= s.wrapperStart && (r.phase == Returned ==> s.execStart <= r.at)
      && (r.phase == Faulted ==> r.at < s.codeCacheEnd)
    case Wrapper =>
      && s.wrapperStart <= r.at && r.End() <= s.wrapperEnd && (r.phase == Returned ==> r.End() <= s.execEnd)
      && (r.phase == Faulted ==> s.execEnd < r.End())
  }

  predicate Bounds(s: State) {
    && s.execStart <= s.wrapperStart <= s.execEnd
    && s.execStart <= s.codeCacheEnd && s.genCodeStart <= s.wrapperStart <= s.wrapperEnd
  }

  ghost predicate RequestsValid(s: State) {
    forall i :: i in s.requests ==> RequestValid(s, s.requests[i])
  }

  ghost predicate PairsValid(s: State) {
    forall i, j :: i in s.requests && j in s.requests && i != j ==> PairValid(s.requests[i], s.requests[j])
  }

  /** An end that has moved is the end of some request. */
  ghost predicate TipsValid(s: State) {
    && (s.codeCacheEnd == s.execStart ||
        exists i :: i in s.requests && s.requests[i].kind == CodeCache && s.requests[i].End() == s.codeCacheEnd)
    && (s.genCodeStart == s.wrapperStart ||
        exists i :: i in s.requests && s.requests[i].kind == GenCode && s.requests[i].at == s.genCodeStart)
  }

  ghost predicate Inv(s: State) {
    Bounds(s) && RequestsValid(s) && PairsValid(s) && TipsValid(s)
  }

  lemma UpdateKeepsInv(s: State, s': State, id: nat, kind: Where, size: nat)
    requires Inv(s) && DoUpdate(s, s', id, kind, size)
    ensures Inv(s')
  {
    hide RequestValid, PairValid, TipsValid, Bounds;
    var r := s'.requests[id];
    NewIsValid(s, s', id, kind, size);
    forall i | i in s'.requests ensures RequestValid(s', s'.requests[i]) {
      if i != id { RequestStays(s, s', id, kind, size, s.requests[i]); }
    }
    forall i, j | i in s'.requests && j in s'.requests && i != j ensures PairValid(s'.requests[i], s'.requests[j]) {
      if i == id {
        NewIsApart(s, s', id, kind, size, s.requests[j]);
      } else if j == id {
        NewIsApart(s, s', id, kind, size, s.requests[i]);
      } else {
        assert PairValid(s.requests[i], s.requests[j]);
      }
    }
    TipsStay(s, s');
  }

  lemma NewIsValid(s: State, s': State, id: nat, kind: Where, size: nat)
    requires Bounds(s) && DoUpdate(s, s', id, kind, size)
    ensures Bounds(s') && id in s'.requests && RequestValid(s', s'.requests[id])
  {
  }

  lemma RequestStays(s: State, s': State, id: nat, kind: Where, size: nat, r: Request)
    requires DoUpdate(s, s', id, kind, size) && RequestValid(s, r)
    ensures RequestValid(s', r)
  {
  }

  lemma NewIsApart(s: State, s': State, id: nat, kind: Where, size: nat, r: Request)
    requires DoUpdate(s, s', id, kind, size) && RequestValid(s, r)
    ensures PairValid(s'.requests[id], r) && PairValid(r, s'.requests[id])
  {
  }

  lemma CheckKeepsInv(s: State, s': State, id: nat)
    requires Inv(s) && DoCheck(s, s', id)
    ensures Inv(s')
  {
    hide RequestValid, PairValid, TipsValid, Passes;
    forall i | i in s'.requests ensures RequestValid(s', s'.requests[i]) {
      assert RequestValid(s, s.requests[i]);
      CheckedRequest(s, s', s.requests[i], s'.requests[i]);
    }
    forall i, j | i in s'.requests && j in s'.requests && i != j ensures PairValid(s'.requests[i], s'.requests[j]) {
      assert RequestValid(s, s.requests[i]) && RequestValid(s, s.requests[j]);
      assert PairValid(s.requests[i], s.requests[j]);
      CheckedPair(s, s.requests[i], s'.requests[i], s.requests[j], s'.requests[j]);
    }
    TipsStay(s, s');
  }

  /** `r'` is `r`, or `r` after its check. */
  predicate Checked(s: State, r: Request, r': Request) {
    r' == r || (r.phase == Pending && r' == r.(phase := if Passes(s, r) then Returned else Faulted))
  }

  lemma CheckedRequest(s: State, s': State, r: Request, r': Request)
    requires Bounds(s) && RequestValid(s, r) && Checked(s, r, r') && s' == s.(requests := s'.requests)
    ensures RequestValid(s', r')
  {
  }

  /** Whichever of two requests checks last sees the update of the other. */
  lemma CheckedPair(s: State, a: Request, a': Request, b: Request, b': Request)
    requires RequestValid(s, a) && RequestValid(s, b) && PairValid(a, b)
    requires Checked(s, a, a') && Checked(s, b, b') && (a' == a || b' == b)
    ensures PairValid(a', b')
  {
  }

  /** Requests keep their place, so the tips stay theirs until a new request moves on. */
  lemma TipsStay(s: State, s': State)
    requires TipsValid(s) && s'.execStart == s.execStart && s'.wrapperStart == s.wrapperStart
    requires forall i :: i in s.requests ==>
               i in s'.requests && s'.requests[i] == s.requests[i].(phase := s'.requests[i].phase)
    requires s'.codeCacheEnd == s.codeCacheEnd ||
             exists i :: i in s'.requests && s'.requests[i].kind == CodeCache && s'.requests[i].End() == s'.codeCacheEnd
    requires s'.genCodeStart == s.genCodeStart ||
             exists i :: i in s'.requests && s'.requests[i].kind == GenCode && s'.requests[i].at == s'.genCodeStart
    ensures TipsValid(s')
  {
    if s.codeCacheEnd != s.execStart {
      var i :| i in s.requests && s.requests[i].kind == CodeCache && s.requests[i].End() == s.codeCacheEnd;
      assert i in s'.requests && s'.requests[i].kind == CodeCache && s'.requests[i].End() == s.codeCacheEnd;
    }
    if s.genCodeStart != s.wrapperStart {
      var i :| i in s.requests && s.requests[i].kind == GenCode && s.requests[i].at == s.genCodeStart;
      assert i in s'.requests && s'.requests[i].kind == GenCode && s'.requests[i].at == s.genCodeStart;
    }
  }

  lemma {:induction false} RunKeepsInv(states: seq<State>, steps: seq<Step>, k: nat)
    requires Run(states, steps) && k < |states|
    ensures Inv(states[k])
  {
    if k > 0 {
      RunKeepsInv(states, steps, k - 1);
      assert Next(states[k - 1], states[k - 1 + 1], steps[k - 1]);
      match steps[k - 1]
      case Update(id, kind, size) => UpdateKeepsInv(states[k - 1], states[k], id, kind, size);
      case Check(id) => CheckKeepsInv(states[k - 1], states[k], id);
    }
  }

  // ----- results -----

  /** In every interleaving, two requests that have returned have disjoint memory inside the
      region, and each lies where its kind belongs. */
  lemma ReturnedIsDisjoint(states: seq<State>, steps: seq<Step>, k: nat, i: nat, j: nat)
    requires Run(states, steps) && k < |states|
    requires i in states[k].requests && j in states[k].requests && i != j
    requires states[k].requests[i].phase == Returned && states[k].requests[j].phase == Returned
    ensures Apart(states[k].requests[i], states[k].requests[j])
    ensures states[k].execStart <= states[k].requests[i].at && states[k].requests[i].End() <= states[k].execEnd
  {
    RunKeepsInv(states, steps, k);
    assert RequestValid(states[k], states[k].requests[i]);
    assert RequestValid(states[k], states[k].requests[j]);
    assert PairValid(states[k].requests[i], states[k].requests[j]);
    assert PairValid(states[k].requests[j], states[k].requests[i]);
  }

  /** In every interleaving, a request faults only when the region is full: the ends of code cache
      and gencode have crossed, or the wrappers have run past the end. */
  lemma FaultedMeansFull(states: seq<State>, steps: seq<Step>, k: nat, i: nat)
    requires Run(states, steps) && k < |states| && i in states[k].requests && states[k].requests[i].phase == Faulted
    ensures var s := states[k];
            if s.requests[i].kind == Wrapper then s.execEnd < s.wrapperEnd else s.genCodeStart < s.codeCacheEnd
  {
    RunKeepsInv(states, steps, k);
    assert RequestValid(states[k], states[k].requests[i]);
  }

  predicate IsCodeCacheAddress(s: State, addr: int) { s.execStart <= addr < s.codeCacheEnd }
  predicate IsWrapperAddress(s: State, addr: int) { s.wrapperStart <= addr < s.wrapperEnd }
  predicate IsGenCodeAddress(s: State, addr: int) { s.genCodeStart <= addr < s.wrapperStart }

  predicate AtMostOne(s: State, addr: int) {
    && !(IsCodeCacheAddress(s, addr) && IsWrapperAddress(s, addr))
    && !(IsCodeCacheAddress(s, addr) && IsGenCodeAddress(s, addr))
    && !(IsWrapperAddress(s, addr) && IsGenCodeAddress(s, addr))
  }

  /** No request is between its update and its check, and none has faulted. */
  ghost predicate Quiet(s: State) {
    forall i :: i in s.requests ==> s.requests[i].phase == Returned
  }

  /** Code cache and gencode have crossed, and both have some pages. */
  predicate EndsCrossed(s: State) {
    && s.execStart < s.codeCacheEnd && s.genCodeStart < s.wrapperStart
    && s.genCodeStart < s.codeCacheEnd && s.execStart < s.wrapperStart
  }

  /** The code cache has run into the wrappers, and there are some. */
  predicate WrappersReached(s: State) {
    s.wrapperStart < s.codeCacheEnd && s.wrapperStart < s.wrapperEnd
  }

  /** Some address is classified twice exactly when the code cache has run past the start of
      gencode or into the wrappers. */
  lemma ExclusiveExactly(s: State)
    requires Bounds(s)
    ensures (exists addr :: !AtMostOne(s, addr)) <==> EndsCrossed(s) || WrappersReached(s)
  {
    if EndsCrossed(s) {
      var addr := if s.genCodeStart >= s.execStart then s.genCodeStart else s.execStart;
      assert IsCodeCacheAddress(s, addr) && IsGenCodeAddress(s, addr) && !AtMostOne(s, addr);
    }
    if WrappersReached(s) {
      assert !AtMostOne(s, s.wrapperStart);
    }
  }

  /** The same for every state of every run. */
  lemma ReachableExclusiveExactly(states: seq<State>, steps: seq<Step>, k: nat)
    requires Run(states, steps) && k < |states|
    ensures (exists addr :: !AtMostOne(states[k], addr)) <==> EndsCrossed(states[k]) || WrappersReached(states[k])
  {
    RunKeepsInv(states, steps, k);
    ExclusiveExactly(states[k]);
  }

  /** While a request is pending they can overlap: both ends have moved past each other and
      neither request has looked yet. */
  lemma PendingMayOverlap() returns (states: seq<State>, steps: seq<Step>)
    ensures Run(states, steps) && |states| == 3 && IsCodeCacheAddress(states[2], 5) && IsGenCodeAddress(states[2], 5)
  {
    var s0 := State(0, 8, 10, 0, 8, 8, map[]);
    var s1 := s0.(codeCacheEnd := 6, requests := map[0 := Request(CodeCache, 0, 6, Pending)]);
    var s2 := s1.(genCodeStart := 4, requests := s1.requests[1 := Request(GenCode, 4, 4, Pending)]);
    states, steps := [s0, s1, s2], [Update(0, CodeCache, 6), Update(1, GenCode, 4)];
  }

  /** Without any gencode, a pending request for the code cache can reach into the wrappers. */
  lemma PendingMayReachWrappers() returns (states: seq<State>, steps: seq<Step>)
    ensures Run(states, steps) && |states| == 3 && !EndsCrossed(states[2])
    ensures IsCodeCacheAddress(states[2], 8) && IsWrapperAddress(states[2], 8)
  {
    var s0 := State(0, 8, 10, 0, 8, 8, map[]);
    var s1 := s0.(codeCacheEnd := 9, requests := map[0 := Request(CodeCache, 0, 9, Pending)]);
    var s2 := s1.(wrapperEnd := 9, requests := s1.requests[1 := Request(Wrapper, 8, 1, Pending)]);
    states, steps := [s0, s1, s2], [Update(0, CodeCache, 9), Update(1, Wrapper, 1)];
  }

  /** In every interleaving, at every moment without a pending or faulted request, no address
      is classified twice. */
  lemma QuietIsExclusive(states: seq<State>, steps: seq<Step>, k: nat, addr: int)
    requires Run(states, steps) && k < |states| && Quiet(states[k])
    ensures AtMostOne(states[k], addr)
  {
    var s := states[k];
    RunKeepsInv(states, steps, k);
    if s.codeCacheEnd != s.execStart {
      var i :| i in s.requests && s.requests[i].kind == CodeCache && s.requests[i].End() == s.codeCacheEnd;
      assert RequestValid(s, s.requests[i]);
      if s.genCodeStart != s.wrapperStart {
        var j :| j in s.requests && s.requests[j].kind == GenCode && s.requests[j].at == s.genCodeStart;
        assert PairValid(s.requests[i], s.requests[j]) && RequestValid(s, s.requests[j]);
      }
    }
  }
}
