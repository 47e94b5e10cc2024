/**
 Pairing windows (src/pairing.ts) and the two endpoints that open and use them (src/transports.ts): a code is
 good once, for five minutes, and expired codes are swept lazily. Instants are milliseconds.
 */
module Pairing {
  import opened Wrappers
  import SseFraming

  type Code = string

  const TTL: int := 300_000
  const DRAWS: nat := 10

  // ---------------------------------------------------------------- the registry

  type Pending = map<Code, int>   // code to `expires_at`

  /** Without the entries whose time is up. */
  function Gc(pending: Pending, now: int): Pending {
    map c | c in pending && now < pending[c] :: pending[c]
  }

  /** The first drawn code not pending; None when all ten are. */
  function FirstFree(pending: Pending, draws: seq<Code>): (r: Option<Code>)
    ensures r.Some? ==> r.value !in pending && r.value in draws
    ensures r.None? <==> forall k :: 0 <= k < |draws| ==> draws[k] in pending
  {
    if draws == [] then None
    else if draws[0] !in pending then Some(draws[0])
    else FirstFree(pending, draws[1..])
  }

  // ---------------------------------------------------------------- steps

  /** A request body's field: `code` and `device_name` are trimmed, and what is no string is empty. */
  function Field(raw: Option<string>): string {
    match raw case Some(s) => SseFraming.JsTrim(s) case None => []
  }

  /** `/pair/initiate` with the codes the generator would draw, `/pair/complete`, and the registry's two
      other calls. */
  datatype Step =
    | Initiate(draws: seq<Code>, now: int)
    | Complete(code: Option<string>, deviceName: Option<string>, now: int)
    | Clear
    | Size(now: int)

  datatype State = State(pending: Pending, devices: nat)

  const START: State := State(map[], 0)

  /** The code a step hands out. */
  function Issued(st: State, step: Step): Option<Code> {
    if step.Initiate? then FirstFree(Gc(st.pending, step.now), step.draws) else None
  }

  /** The code a step uses up. */
  function Used(st: State, step: Step): Option<Code> {
    if step.Complete? && Field(step.code) != [] && Field(step.deviceName) != []
       && Field(step.code) in Gc(st.pending, step.now)
    then Some(Field(step.code)) else None
  }

  /** Whether a step looks at the clock, and so sweeps: a request with an empty field is refused before. */
  predicate Sweeps(step: Step) {
    match step
    case Complete(code, name, _) => Field(code) != [] && Field(name) != []
    case Clear => false
    case _ => true
  }

  function Apply(st: State, step: Step): State {
    match step
    case Initiate(draws, now) =>
      (match Issued(st, step)
       case Some(c) => st.(pending := Gc(st.pending, now)[c := now + TTL])
       case None => st.(pending := Gc(st.pending, now)))
    case Complete(code, name, now) =>
      if !Sweeps(step) then st
      else (match Used(st, step)
            case Some(c) => State(Gc(st.pending, now) - {c}, st.devices + 1)
            case None => st.(pending := Gc(st.pending, now)))
    case Clear => st.(pending := map[])
    case Size(now) => st.(pending := Gc(st.pending, now))
  }

  function Run(steps: seq<Step>): State {
    if steps == [] then START else Apply(Run(steps[..|steps| - 1]), steps[|steps| - 1])
  }

  // ---------------------------------------------------------------- what the history says

  predicate Opens(steps: seq<Step>, i: int, c: Code) {
    0 <= i < |steps| && Issued(Run(steps[..i]), steps[i]) == Some(c)
  }

  predicate Consumes(steps: seq<Step>, i: int, c: Code) {
    0 <= i < |steps| && Used(Run(steps[..i]), steps[i]) == Some(c)
  }

  /** Step `i` opened the latest window of `c` before step `k`, and it was neither used nor cleared since. */
  predicate Standing(steps: seq<Step>, i: int, k: int, c: Code) {
    && 0 <= i < k <= |steps| && Opens(steps, i, c)
    && forall j :: i < j < k ==> !Opens(steps, j, c) && !Consumes(steps, j, c) && !steps[j].Clear?
  }

  predicate Monotone(steps: seq<Step>) {
    forall i, j :: 0 <= i < j < |steps| && !steps[i].Clear? && !steps[j].Clear? ==> steps[i].now <= steps[j].now
  }

  /** When the time of a window opened by step `i` is up. */
  function Deadline(steps: seq<Step>, i: int): int {
    if 0 <= i < |steps| && steps[i].Initiate? then steps[i].now + TTL else 0
  }

  /** The window's time was up at some sweep before step `k`. */
  predicate SweptBefore(steps: seq<Step>, k: int, deadline: int) {
    exists j :: 0 <= j < k && j < |steps| && Sweeps(steps[j]) && deadline <= steps[j].now
  }

  /** The lazily swept registry against the history: every entry is a standing window with its deadline, and
      a standing window is missing only when some sweep came after its deadline. */
  ghost predicate Agrees(steps: seq<Step>, k: nat, pending: Pending)
    requires k <= |steps|
  {
    && (forall c :: c in pending ==> exists i :: Standing(steps, i, k, c) && pending[c] == Deadline(steps, i))
    && (forall c, i :: Standing(steps, i, k, c) ==>
          (c in pending && pending[c] == Deadline(steps, i)) || SweptBefore(steps, k, Deadline(steps, i)))
  }

  /** What one step does to the windows standing. */
  lemma {:induction false} StandingStep(steps: seq<Step>, i: int, k: nat, c: Code)
    requires k < |steps|
    ensures Standing(steps, i, k + 1, c) <==>
      (i == k && Opens(steps, k, c))
      || (Standing(steps, i, k, c) && !Opens(steps, k, c) && !Consumes(steps, k, c) && !steps[k].Clear?)
  {
    hide Opens, Consumes;
  }

  /** What one step does to the entry of one code. */
  lemma {:induction false} EntryStep(st: State, step: Step, c: Code)
    ensures var after := Apply(st, step).pending;
      && (Issued(st, step) == Some(c) ==> step.Initiate? && c in after && after[c] == step.now + TTL)
      && (Issued(st, step) != Some(c) && c in after ==>
            c in st.pending && after[c] == st.pending[c] && Used(st, step) != Some(c) && !step.Clear?)
      && (c in st.pending && Used(st, step) != Some(c) && !step.Clear? && Issued(st, step) != Some(c) && c !in after ==>
            Sweeps(step) && st.pending[c] <= step.now)
  {
  }

  lemma {:induction false} EntriesStayStanding(steps: seq<Step>, k: nat, c: Code)
    requires k < |steps| && Agrees(steps, k, Run(steps[..k]).pending) && c in Apply(Run(steps[..k]), steps[k]).pending
    ensures exists i :: Standing(steps, i, k + 1, c) && Apply(Run(steps[..k]), steps[k]).pending[c] == Deadline(steps, i)
  {
    hide Issued, Used, Apply, Standing, Sweeps;
    var st := Run(steps[..k]);
    EntryStep(st, steps[k], c);
    if Opens(steps, k, c) {
      StandingStep(steps, k, k, c);
      assert Standing(steps, k, k + 1, c);
      assert Deadline(steps, k) == steps[k].now + TTL;
    } else {
      var i :| Standing(steps, i, k, c) && st.pending[c] == Deadline(steps, i);
      StandingStep(steps, i, k, c);
    }
  }

  lemma {:induction false} SweptStays(steps: seq<Step>, k: nat, deadline: int)
    requires k < |steps| && SweptBefore(steps, k, deadline)
    ensures SweptBefore(steps, k + 1, deadline)
  {
  }

  lemma {:induction false} StandingStayEntries(steps: seq<Step>, k: nat, c: Code, i: int)
    requires k < |steps| && Agrees(steps, k, Run(steps[..k]).pending) && Standing(steps, i, k + 1, c)
    ensures Opens(steps, i, c)
    ensures var after := Apply(Run(steps[..k]), steps[k]).pending;
      (c in after && after[c] == Deadline(steps, i)) || SweptBefore(steps, k + 1, Deadline(steps, i))
  {
    StandingStep(steps, i, k, c);
    hide Issued, Used, Apply, Sweeps;
    var st := Run(steps[..k]);
    EntryStep(st, steps[k], c);
    if i < k && SweptBefore(steps, k, Deadline(steps, i)) {
      SweptStays(steps, k, Deadline(steps, i));
    }
  }

  lemma {:induction false} RegistryAgreesWithHistory(steps: seq<Step>, k: nat)
    requires k <= |steps|
    ensures Agrees(steps, k, Run(steps[..k]).pending)
    decreases k
  {
    if k > 0 {
      hide Issued, Used, Apply, Standing, Sweeps;
      var st := Run(steps[..k - 1]);
      assert steps[..k][..k - 1] == steps[..k - 1];
      RegistryAgreesWithHistory(steps, k - 1);
      var after := Run(steps[..k]).pending;
      forall c | c in after ensures exists i :: Standing(steps, i, k, c) && after[c] == Deadline(steps, i) {
        EntriesStayStanding(steps, k - 1, c);
      }
      forall c, i | Standing(steps, i, k, c)
        ensures (c in after && after[c] == Deadline(steps, i)) || SweptBefore(steps, k, Deadline(steps, i))
      {
        StandingStayEntries(steps, k - 1, c, i);
      }
    }
  }

  // ---------------------------------------------------------------- over whole runs

  lemma {:induction false} SweepsAreEarlier(steps: seq<Step>, k: nat, deadline: int)
    requires Monotone(steps) && k < |steps| && Sweeps(steps[k]) && SweptBefore(steps, k, deadline)
    ensures deadline <= steps[k].now
  {
  }

  /** Under a clock that does not go back, after a sweep at step `k` the registry holds exactly the standing
      windows whose five minutes are not over. */
  lemma {:induction false} SweptRegistryIsExact(steps: seq<Step>, k: nat, c: Code)
    requires Monotone(steps) && k < |steps| && Sweeps(steps[k])
    ensures c in Gc(Run(steps[..k]).pending, steps[k].now) <==>
      exists i :: Standing(steps, i, k, c) && steps[k].now < Deadline(steps, i)
  {
    RegistryAgreesWithHistory(steps, k);
    hide Standing, Opens;
    var pending := Run(steps[..k]).pending;
    if i :| Standing(steps, i, k, c) && steps[k].now < Deadline(steps, i) {
      if SweptBefore(steps, k, Deadline(steps, i)) {
        SweepsAreEarlier(steps, k, Deadline(steps, i));
      }
      assert c in pending && pending[c] == Deadline(steps, i);
    }
  }

  /** A device is paired exactly when the latest opening of its code is unused, not cleared, and under five
      minutes old. */
  lemma {:induction false} PairsExactlyOnStandingWindow(steps: seq<Step>, k: nat)
    requires Monotone(steps) && k < |steps| && steps[k].Complete? && Sweeps(steps[k])
    ensures var c := Field(steps[k].code);
      Used(Run(steps[..k]), steps[k]) == Some(c) <==>
      exists i :: Standing(steps, i, k, c) && steps[k].now < Deadline(steps, i)
  {
    hide Standing, Field;
    var c := Field(steps[k].code);
    SweptRegistryIsExact(steps, k, c);
  }

  /** A standing window of the code is under five minutes old. */
  ghost predicate WindowIsGood(steps: seq<Step>, k: nat, c: Code, now: int) {
    exists i :: Standing(steps, i, k, c) && now < Deadline(steps, i)
  }

  lemma {:induction false} SweepsLeaveNothingExpired(st: State, step: Step, c: Code)
    requires Sweeps(step) && c in Apply(st, step).pending
    ensures step.now < Apply(st, step).pending[c]
  {
    hide Field;
  }

  lemma {:induction false} SweepsSoFar(steps: seq<Step>, k: nat, deadline: int)
    requires Monotone(steps) && k < |steps| && Sweeps(steps[k]) && SweptBefore(steps, k + 1, deadline)
    ensures deadline <= steps[k].now
  {
  }

  /** After every step that looks at the clock the registry holds exactly the good windows: nothing that has expired
      is kept. */
  lemma {:induction false} SweepsKeepTheGoodOnly(steps: seq<Step>, k: nat, c: Code)
    requires Monotone(steps) && k < |steps| && Sweeps(steps[k])
    ensures c in Run(steps[..k + 1]).pending <==> WindowIsGood(steps, k + 1, c, steps[k].now)
  {
    RegistryAgreesWithHistory(steps, k + 1);
    assert steps[..k + 1][..k] == steps[..k];
    assert Run(steps[..k + 1]) == Apply(Run(steps[..k]), steps[k]);
    hide Run, Apply, Standing, Deadline, SweptBefore, Sweeps, Monotone;
    var pending := Run(steps[..k + 1]).pending;
    if c in pending {
      SweepsLeaveNothingExpired(Run(steps[..k]), steps[k], c);
      var i :| Standing(steps, i, k + 1, c) && pending[c] == Deadline(steps, i);
    }
    if i :| Standing(steps, i, k + 1, c) && steps[k].now < Deadline(steps, i) {
      if SweptBefore(steps, k + 1, Deadline(steps, i)) { SweepsSoFar(steps, k, Deadline(steps, i)); }
    }
  }

  ghost predicate FirstWithout(steps: seq<Step>, k: nat, draws: seq<Code>, d: int, now: int) {
    && 0 <= d < |draws| && !WindowIsGood(steps, k, draws[d], now)
    && forall e :: 0 <= e < d ==> WindowIsGood(steps, k, draws[e], now)
  }

  lemma {:induction false} FirstFreeIndex(pending: Pending, draws: seq<Code>) returns (d: nat)
    requires FirstFree(pending, draws).Some?
    ensures d < |draws| && FirstFree(pending, draws) == Some(draws[d])
    ensures forall e :: 0 <= e < d ==> draws[e] in pending
  {
    if draws[0] !in pending {
      d := 0;
    } else {
      var m := FirstFreeIndex(pending, draws[1..]);
      d := m + 1;
      forall e | 0 <= e < d ensures draws[e] in pending {
        if e > 0 { assert draws[e] == draws[1..][e - 1]; }
      }
    }
  }

  /** The code handed out is the first one drawn with no good window; none is, and the request fails, only when all
      the codes drawn have one. */
  lemma {:induction false} IssuesTheFirstFree(steps: seq<Step>, k: nat)
    requires Monotone(steps) && k < |steps| && steps[k].Initiate?
    ensures var issued, draws, now := Issued(Run(steps[..k]), steps[k]), steps[k].draws, steps[k].now;
      && (issued.None? <==> forall e :: 0 <= e < |draws| ==> WindowIsGood(steps, k, draws[e], now))
      && (issued.Some? ==> exists d :: FirstWithout(steps, k, draws, d, now) && issued == Some(draws[d]))
  {
    var draws, now := steps[k].draws, steps[k].now;
    var swept := Gc(Run(steps[..k]).pending, now);
    forall e | 0 <= e < |draws| ensures draws[e] in swept <==> WindowIsGood(steps, k, draws[e], now) {
      SweptRegistryIsExact(steps, k, draws[e]);
    }
    hide WindowIsGood, Gc, Run, FirstFree;
    if FirstFree(swept, draws).Some? {
      var d := FirstFreeIndex(swept, draws);
      assert FirstWithout(steps, k, draws, d, now);
    }
  }

  /** No code is handed out while a window under it is still good: live codes are distinct. */
  lemma {:induction false} LiveCodesAreNotReissued(steps: seq<Step>, i: int, k: nat, c: Code)
    requires Monotone(steps) && Opens(steps, k, c) && Standing(steps, i, k, c)
    ensures steps[k].now >= Deadline(steps, i)
  {
    SweptRegistryIsExact(steps, k, c);
  }

  // ---------------------------------------------------------------- devices and windows

  function Windows(steps: seq<Step>): nat {
    if steps == [] then 0
    else Windows(steps[..|steps| - 1]) + (if Issued(Run(steps[..|steps| - 1]), steps[|steps| - 1]).Some? then 1 else 0)
  }

  lemma {:induction false} GcIsSmaller(pending: Pending, now: int)
    ensures |Gc(pending, now)| <= |pending|
  {
    assert Gc(pending, now).Keys <= pending.Keys;
    SmallerKeys(Gc(pending, now).Keys, pending.Keys);
    assert |Gc(pending, now)| == |Gc(pending, now).Keys| && |pending| == |pending.Keys|;
  }

  lemma {:induction false} SmallerKeys(a: set<Code>, b: set<Code>)
    requires a <= b
    ensures |a| <= |b|
  {
    assert b == a + (b - a);
    assert |b| == |a| + |b - a|;
  }

  lemma {:induction false} BooksStep(st: State, step: Step)
    ensures var after := Apply(st, step);
      after.devices + |after.pending| <= st.devices + |st.pending| + (if Issued(st, step).Some? then 1 else 0)
  {
    hide Field;
    if !step.Clear? {
      var swept := Gc(st.pending, step.now);
      GcIsSmaller(st.pending, step.now);
      match step
      case Initiate(_, now) =>
        if Issued(st, step).Some? {
          assert swept[Issued(st, step).value := now + TTL].Keys == swept.Keys + {Issued(st, step).value};
        }
      case Complete(_, _, _) =>
        if Used(st, step).Some? {
          assert (swept - {Used(st, step).value}).Keys == swept.Keys - {Used(st, step).value};
        }
      case _ =>
    }
  }

  /** Every device paired, and every window still pending, has a window that was opened for it alone. */
  lemma {:induction false} DevicesNeverExceedWindows(steps: seq<Step>)
    ensures Run(steps).devices + |Run(steps).pending| <= Windows(steps)
  {
    if steps != [] {
      DevicesNeverExceedWindows(steps[..|steps| - 1]);
      BooksStep(Run(steps[..|steps| - 1]), steps[|steps| - 1]);
    }
  }

  /** Step `k` pairs a device: neither field is blank, and the code has a good window. */
  ghost predicate PairsAt(steps: seq<Step>, k: nat)
    requires k < |steps|
  {
    && steps[k].Complete? && Field(steps[k].code) != [] && Field(steps[k].deviceName) != []
    && WindowIsGood(steps, k, Field(steps[k].code), steps[k].now)
  }

  ghost function PairCount(steps: seq<Step>): nat {
    if steps == [] then 0
    else PairCount(steps[..|steps| - 1]) + (if PairsAt(steps, |steps| - 1) then 1 else 0)
  }

  lemma {:induction false} MonotonePrefix(steps: seq<Step>, n: nat)
    requires Monotone(steps) && n <= |steps|
    ensures Monotone(steps[..n])
  {
  }

  lemma {:induction false} DevicesStep(st: State, step: Step)
    ensures Apply(st, step).devices == st.devices + (if Used(st, step).Some? then 1 else 0)
  {
    hide Field, Gc;
  }

  /** There are exactly as many devices as completions that named a device and a code whose window was good. */
  lemma {:induction false} DevicesAreThoseThatPaired(steps: seq<Step>)
    requires Monotone(steps)
    ensures Run(steps).devices == PairCount(steps)
  {
    if steps != [] {
      var n := |steps| - 1;
      MonotonePrefix(steps, n);
      DevicesAreThoseThatPaired(steps[..n]);
      DevicesStep(Run(steps[..n]), steps[n]);
      if steps[n].Complete? && Sweeps(steps[n]) { PairsExactlyOnStandingWindow(steps, n); }
      hide Field, Gc, Standing, Run;
    }
  }

  /** White space around the code and the name typed into the device makes no difference. */
  lemma {:induction false} PaddingMakesNoDifference(st: State, a: string, code: string, b: string, name: Option<string>, now: int)
    requires SseFraming.AllSpace(a, SseFraming.Js) && SseFraming.AllSpace(b, SseFraming.Js)
    ensures Apply(st, Complete(Some(a + code + b), name, now)) == Apply(st, Complete(Some(code), name, now))
    ensures forall c: Option<string> ::
      Apply(st, Complete(c, Some(a + code + b), now)) == Apply(st, Complete(c, Some(code), now))
  {
    SseFraming.JsTrimIgnoresPadding(a, code, b);
    assert Field(Some(a + code + b)) == Field(Some(code));
    hide Field, Gc;
  }

  // ---------------------------------------------------------------- the class and the endpoints

  class PendingPairingRegistry {
    var pending: Pending

    constructor ()
      ensures pending == map[]
    {
      pending := map[];
    }

    /** Deletes the expired entries one by one. */
    method CollectExpired(now: int)
      modifies this
      ensures pending == Gc(old(pending), now)
    {
      var left := pending.Keys;
      while left != {}
        invariant left <= old(pending).Keys
        invariant forall c :: c in pending <==> c in old(pending) && (c in left || now < old(pending)[c])
        invariant forall c :: c in pending ==> pending[c] == old(pending)[c]
        decreases left
      {
        var c :| c in left;
        if pending[c] <= now { pending := pending - {c}; }
        left := left - {c};
      }
    }

    /** Tries up to ten drawn codes; None is the error thrown when all were taken. */
    method OpenWindow(draws: seq<Code>, now: int) returns (code: Option<Code>)
      requires |draws| == DRAWS
      modifies this
      ensures code == FirstFree(Gc(old(pending), now), draws)
      ensures pending == if code.Some? then Gc(old(pending), now)[code.value := now + TTL] else Gc(old(pending), now)
    {
      CollectExpired(now);
      for i := 0 to DRAWS
        invariant pending == Gc(old(pending), now)
        invariant FirstFree(pending, draws[i..]) == FirstFree(pending, draws)
      {
        assert draws[i..][1..] == draws[i + 1..];
        if draws[i] !in pending {
          code := Some(draws[i]);
          pending := pending[draws[i] := now + TTL];
          return;
        }
      }
      code := None;
    }

    /** Compares with every pending code, without stopping at a match. */
    method Consume(code: Code, now: int) returns (matched: bool)
      modifies this
      ensures matched <==> code in Gc(old(pending), now)
      ensures pending == Gc(old(pending), now) - {code}
    {
      CollectExpired(now);
      matched := false;
      var left := pending.Keys;
      while left != {}
        invariant left <= pending.Keys && (matched <==> code in pending && code !in left)
        decreases left
      {
        var c :| c in left;
        if c == code { matched := true; }
        left := left - {c};
      }
      if matched {
        pending := pending - {code};
      } else {
        assert pending - {code} == pending;
      }
    }

    method DropAll()
      modifies this
      ensures pending == map[]
    {
      pending := map[];
    }

    method Count(now: int) returns (n: nat)
      modifies this
      ensures pending == Gc(old(pending), now) && n == |pending|
    {
      CollectExpired(now);
      n := |pending|;
    }
  }

  datatype Reply = BadRequest | InvalidCode | Paired

  /** The two endpoints over one registry, with the number of device rows. */
  class Daemon {
    const registry: PendingPairingRegistry
    var devices: nat

    ghost function Value(): State
      reads this, registry
    {
      State(registry.pending, devices)
    }

    constructor ()
      ensures fresh(registry) && Value() == START
    {
      registry := new PendingPairingRegistry();
      devices := 0;
    }

    method PairInitiate(draws: seq<Code>, now: int) returns (code: Option<Code>)
      requires |draws| == DRAWS
      modifies registry
      ensures Value() == Apply(old(Value()), Initiate(draws, now))
      ensures code == Issued(old(Value()), Initiate(draws, now))
    {
      code := registry.OpenWindow(draws, now);
    }

    method PairComplete(code: Option<string>, deviceName: Option<string>, now: int) returns (reply: Reply)
      modifies this, registry
      ensures Value() == Apply(old(Value()), Complete(code, deviceName, now))
      ensures reply.Paired? <==> Used(old(Value()), Complete(code, deviceName, now)).Some?
      ensures reply.BadRequest? <==> Field(code) == [] || Field(deviceName) == []
    {
      hide Field;
      var c, name := Field(code), Field(deviceName);
      if c == [] || name == [] { return BadRequest; }
      var matched := registry.Consume(c, now);
      if !matched {
        assert Gc(old(registry.pending), now) - {c} == Gc(old(registry.pending), now);
        return InvalidCode;
      }
      devices := devices + 1;
      reply := Paired;
    }
  }
}
