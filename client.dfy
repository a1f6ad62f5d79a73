/**
 * The send-only node of the EVM client: its state enumeration with the two
 * renderings, the guarded state setter, and the chain-ID verification loop.
 */
module Client {
  import Decimal

  /** `SendOnlyNodeState` is a Go `int` (64 bits wide on the targets the node runs on). */
  newtype NodeState = x: int | -0x8000_0000_0000_0000 <= x < 0x8000_0000_0000_0000

  // The six named states, numbered as the `iota` block numbers them.
  const Undialed: NodeState := 0
  const Dialed: NodeState := 1
  const InvalidChainID: NodeState := 2
  const Alive: NodeState := 3
  const Unusable: NodeState := 4
  const Closed: NodeState := 5

  /** The names the six known states render as, indexed by state number. */
  const StateNames: seq<string> := ["Undialed", "Dialed", "InvalidChainID", "Alive", "Invalid", "Closed"]

  predicate IsNamed(s: NodeState)
  {
    Undialed <= s <= Closed
  }

  /** `SendOnlyNodeState.String`. */
  function String(s: NodeState): (r: string)
    ensures IsNamed(s) ==> r == StateNames[s]
    ensures !IsNamed(s) ==> r == "SendOnlyNodeState(" + Decimal.IntToString(s as int) + ")"
  {
    if s == Undialed then "Undialed"
    else if s == Dialed then "Dialed"
    else if s == InvalidChainID then "InvalidChainID"
    else if s == Alive then "Alive"
    else if s == Unusable then "Invalid"
    else if s == Closed then "Closed"
    else "SendOnlyNodeState(" + Decimal.IntToString(s as int) + ")"
  }

  /** `SendOnlyNodeState.GoString`: the type name, the name, then the number in parentheses. */
  function GoString(s: NodeState): (r: string)
    ensures |r| > |"SendOnlyNodeState"| && r[..17] == "SendOnlyNodeState" && r[|r| - 1] == ')'
  {
    "SendOnlyNodeState" + String(s) + "(" + Decimal.IntToString(s as int) + ")"
  }

  /** The six names are pairwise distinct. */
  lemma StateNamesDistinct(a: NodeState, b: NodeState)
    requires IsNamed(a) && IsNamed(b) && a != b
    ensures StateNames[a] != StateNames[b]
  {
    assert StateNames[a][0] != StateNames[b][0] || |StateNames[a]| != |StateNames[b]|;
  }

  /** No two states, named or not, render alike. */
  lemma StringInjective(a: NodeState, b: NodeState)
    requires String(a) == String(b)
    ensures a == b
  {
    if IsNamed(a) && IsNamed(b) {
      if a != b { StateNamesDistinct(a, b); }
    } else if !IsNamed(a) && !IsNamed(b) {
      var da, db := Decimal.IntToString(a as int), Decimal.IntToString(b as int);
      assert String(a)[18..|String(a)| - 1] == da;
      assert String(b)[18..|String(b)| - 1] == db;
      Decimal.IntToStringInjective(a as int, b as int);
    }
  }

  /**
   * When two strings both end in "(" + d + ")" with no '(' inside d, the two
   * d's coincide.
   */
  lemma ParenSuffix(p1: string, d1: string, p2: string, d2: string)
    requires p1 + "(" + d1 + ")" == p2 + "(" + d2 + ")"
    requires forall k :: 0 <= k < |d1| ==> d1[k] != '('
    requires forall k :: 0 <= k < |d2| ==> d2[k] != '('
    ensures d1 == d2
  {
    var r1, r2 := p1 + "(" + d1 + ")", p2 + "(" + d2 + ")";
    assert |d1| == |d2| by {
      if |d1| < |d2| {
        NoParenInside(p2, d2, |p1|);
        assert false;
      } else if |d2| < |d1| {
        NoParenInside(p1, d1, |p2|);
        assert false;
      }
    }
    assert d1 == r1[|p1| + 1..|r1| - 1];
    assert d2 == r2[|p2| + 1..|r2| - 1];
  }

  lemma NoParenInside(p: string, d: string, i: nat)
    requires forall k :: 0 <= k < |d| ==> d[k] != '('
    requires |p| < i < |p| + 1 + |d|
    ensures (p + "(" + d + ")")[i] != '('
  {
    assert (p + "(" + d + ")")[i] == d[i - |p| - 1];
  }

  /** No two states have the same Go-syntax rendering. */
  lemma GoStringInjective(a: NodeState, b: NodeState)
    requires GoString(a) == GoString(b)
    ensures a == b
  {
    var da, db := Decimal.IntToString(a as int), Decimal.IntToString(b as int);
    ParenSuffix("SendOnlyNodeState" + String(a), da, "SendOnlyNodeState" + String(b), db);
    Decimal.IntToStringInjective(a as int, b as int);
  }

  /** One outcome the verification loop can observe after a backoff wait. */
  datatype VerifyEvent =
    | QueryFailed                              // `sender.ChainID` returned an error
    | Reported(chainID: int, started: bool)    // the reported ID, and whether `IfStarted` found the node started
    | Stop                                     // `chStop` fired

  /** Why the loop returned; `Exhausted` means the finite trace ran out while the loop was still waiting. */
  datatype Exit = Verified | NotStarted | Stopped | Exhausted

  datatype VerifyRun = VerifyRun(state: NodeState, consumed: nat, exit: Exit)

  /** An outcome after which the loop waits and asks again. */
  predicate IsRetry(e: VerifyEvent, expected: int)
  {
    e.QueryFailed? || (e.Reported? && e.started && e.chainID != expected)
  }

  predicate IsMismatch(e: VerifyEvent, expected: int)
  {
    e.Reported? && e.started && e.chainID != expected
  }

  /** The exit an event that ends the loop leads to. */
  function ExitOn(e: VerifyEvent, expected: int): Exit
  {
    match e
    case Stop => Stopped
    case QueryFailed => Exhausted
    case Reported(id, started) => if !started then NotStarted else if id == expected then Verified else Exhausted
  }

  function Later(r: VerifyRun, n: nat): VerifyRun
  {
    VerifyRun(r.state, r.consumed + n, r.exit)
  }

  /** What `verifyLoop` does with a trace of outcomes, starting from state `s`. */
  function Verify(s: NodeState, expected: int, events: seq<VerifyEvent>): (r: VerifyRun)
    ensures r.consumed <= |events|
    ensures r.exit == Exhausted <==> r.consumed == |events| && (events == [] || IsRetry(events[|events| - 1], expected))
    ensures r.exit != Exhausted ==> r.consumed >= 1
    decreases |events|
  {
    if events == [] then VerifyRun(s, 0, Exhausted)
    else
      match events[0]
      case Stop => VerifyRun(s, 1, Stopped)
      case QueryFailed => Later(Verify(s, expected, events[1..]), 1)
      case Reported(id, started) =>
        if !started then VerifyRun(s, 1, NotStarted)
        else if id != expected then Later(Verify(InvalidChainID, expected, events[1..]), 1)
        else VerifyRun(Alive, 1, Verified)
  }

  /**
   * The loop consumes retries up to the first other outcome, which ends it and
   * decides how; if there is none it consumes the whole trace.
   */
  lemma {:induction false} VerifyStopsAtFirstDecision(s: NodeState, expected: int, events: seq<VerifyEvent>)
    ensures var r := Verify(s, expected, events);
      && (forall k :: 0 <= k < r.consumed - 1 ==> IsRetry(events[k], expected))
      && (r.exit != Exhausted ==> !IsRetry(events[r.consumed - 1], expected) && ExitOn(events[r.consumed - 1], expected) == r.exit)
    decreases |events|
  {
    if events != [] && IsRetry(events[0], expected) {
      var next := if events[0].QueryFailed? then s else InvalidChainID;
      VerifyStopsAtFirstDecision(next, expected, events[1..]);
    }
  }

  /** Once the loop has returned, outcomes after the ones it consumed make no difference. */
  lemma {:induction false} VerifyIgnoresLaterEvents(s: NodeState, expected: int, events: seq<VerifyEvent>, more: seq<VerifyEvent>)
    requires Verify(s, expected, events).exit != Exhausted
    ensures Verify(s, expected, events + more) == Verify(s, expected, events)
    decreases |events|
  {
    assert (events + more)[0] == events[0];
    if IsRetry(events[0], expected) {
      assert (events + more)[1..] == events[1..] + more;
      var next := if events[0].QueryFailed? then s else InvalidChainID;
      VerifyIgnoresLaterEvents(next, expected, events[1..], more);
    }
  }

  /** The only states the loop writes are InvalidChainID and Alive, and Alive only on the way out. */
  lemma {:induction false} VerifyWrites(s: NodeState, expected: int, events: seq<VerifyEvent>)
    ensures var r := Verify(s, expected, events);
      && (r.exit == Verified ==> r.state == Alive)
      && (r.exit != Verified ==> r.state == s || r.state == InvalidChainID)
    decreases |events|
  {
    if events != [] && IsRetry(events[0], expected) {
      var next := if events[0].QueryFailed? then s else InvalidChainID;
      VerifyWrites(next, expected, events[1..]);
    }
  }

  /** Without a mismatch among the consumed outcomes, a loop that did not verify leaves the state as it was. */
  lemma {:induction false} VerifyKeepsStateWithoutMismatch(s: NodeState, expected: int, events: seq<VerifyEvent>)
    requires Verify(s, expected, events).exit != Verified
    requires forall k :: 0 <= k < Verify(s, expected, events).consumed ==> !IsMismatch(events[k], expected)
    ensures Verify(s, expected, events).state == s
    decreases |events|
  {
    if events != [] && events[0].QueryFailed? {
      VerifyKeepsStateWithoutMismatch(s, expected, events[1..]);
    }
  }

  /** After a consumed mismatch, a loop that did not verify leaves the state InvalidChainID. */
  lemma {:induction false} VerifyMarksMismatch(s: NodeState, expected: int, events: seq<VerifyEvent>, k: nat)
    requires k < Verify(s, expected, events).consumed && IsMismatch(events[k], expected)
    requires Verify(s, expected, events).exit != Verified
    ensures Verify(s, expected, events).state == InvalidChainID
    decreases |events|
  {
    if k == 0 {
      VerifyWrites(InvalidChainID, expected, events[1..]);
    } else {
      var next := if events[0].QueryFailed? then s else InvalidChainID;
      VerifyMarksMismatch(next, expected, events[1..], k - 1);
    }
  }

  /** The part of `sendOnlyNode` the FSM and the verification loop touch. */
  class SendOnlyNode {
    var state: NodeState
    const name: string
    const chainID: int

    constructor (name: string, chainID: int)
      ensures state == Undialed && this.name == name && this.chainID == chainID
    {
      this.name := name;
      this.chainID := chainID;
      state := Undialed;
    }

    /** `setState`: the state becomes `x`; the frame leaves every other field alone. */
    method SetState(x: NodeState)
      modifies this`state
      ensures state == x
    {
      state := x;
    }

    /**
     * `verifyLoop` over a finite trace of outcomes, one per backoff wait.
     * Returns how many outcomes it consumed and why it returned.
     */
    method VerifyLoop(events: seq<VerifyEvent>) returns (consumed: nat, exit: Exit)
      modifies this`state
      ensures var r := Verify(old(state), chainID, events);
        state == r.state && consumed == r.consumed && exit == r.exit
    {
      ghost var s0 := state;
      var i := 0;
      while i < |events|
        invariant 0 <= i <= |events|
        invariant Verify(s0, chainID, events) == Later(Verify(state, chainID, events[i..]), i)
        decreases |events| - i
      {
        assert events[i..][0] == events[i] && events[i..][1..] == events[i + 1..];
        match events[i] {
          case Stop =>
            return i + 1, Stopped;
          case QueryFailed =>
          case Reported(id, started) =>
            if !started {
              return i + 1, NotStarted;
            }
            if id != chainID {
              SetState(InvalidChainID);
            } else {
              SetState(Alive);
              return i + 1, Verified;
            }
        }
        i := i + 1;
      }
      consumed, exit := |events|, Exhausted;
    }
  }
}
