/**
 The life of a call of `SyncSend` (SocketExams/libuvClient_test/MyClient.cpp, lines 259-321) in every
 interleaving: what a call has done tells where it is and which error code it returns, a failed send
 goes straight to the clean-up, and an answer that has arrived is not missed.
 */
module SyncCalls {
  import opened Common
  import opened Semaphore
  import opened SyncRpc

  /** What a call does. */
  datatype Deed =
    | Registers
    | SendError(error: int)
    | SendOk
    | Waits
    | Wakes
    | Expires
    | GivesUp
    | Takes
    | Cleans

  function DeedsOf(step: SyncRpc.Step, id: Id): (r: set<Deed>) {
    match step
    case Register(x) => if x == id then {Registers} else {}
    case SendFails(x, error) => if x == id then {SendError(error)} else {}
    case SendWorks(x) => if x == id then {SendOk} else {}
    case BeginWait(x, _) => if x == id then {Waits} else {}
    case WakeUp(x) => if x == id then {Wakes} else {}
    case TimeOut(x) => if x == id then {Expires} else {}
    case GiveUpWait(x) => if x == id then {GivesUp} else {}
    case Take(x) => if x == id then {Takes} else {}
    case CleanUp(x) => if x == id then {Cleans} else {}
    case _ => {}
  }

  /** What call `id` has done in the first `i` steps. */
  function Deeds(steps: seq<SyncRpc.Step>, i: nat, id: Id): (r: set<Deed>)
    requires i <= |steps|
  {
    if i == 0 then {} else Deeds(steps, i - 1, id) + DeedsOf(steps[i - 1], id)
  }

  /** A wait that has ended with success, with or without having blocked. */
  predicate HasWon(k: set<Deed>, more: set<Deed>) {
    k == {Registers, SendOk, Waits} + more || k == {Registers, SendOk, Waits, Wakes} + more
  }

  /** A send that has failed, or a wait that has timed out, and the error code of each. */
  predicate HasFailed(k: set<Deed>, code: Option<int>, more: set<Deed>) {
    || (code.Some? && code.value != 0 && k == {Registers, SendError(code.value)} + more)
    || (code == Some(-13) && k == {Registers, SendOk, Waits, Expires, GivesUp} + more)
  }

  /** Where a call is after the deeds `k`, and with which error code. */
  ghost predicate LifeOk(c: Client, id: Id, k: set<Deed>) {
    if id !in c.calls then k == {}
    else
      var call := c.calls[id];
      match call.phase
      case Drawn => k == {} && call.code == None
      case Registered => k == {Registers} && call.code == None
      case Sent => k == {Registers, SendOk} && call.code == None
      case Waiting =>
        k == {Registers, SendOk, Waits} + (if id in call.sem.expired then {Expires} else {}) && call.code == None
      case Won => HasWon(k, {}) && call.code == Some(0)
      case Failed => HasFailed(k, call.code, {})
      case Taken => HasWon(k, {Takes}) && call.code == Some(0)
      case Returned => (HasWon(k, {Takes, Cleans}) && call.code == Some(0)) || HasFailed(k, call.code, {Cleans})
  }

  /** Steps of other calls, and messages, leave a call where it is. */
  lemma OthersLeaveLife(c: Client, step: SyncRpc.Step, c': Client, id: Id)
    requires Inv(c) && SyncRpc.Next(c, step, c') && DeedsOf(step, id) == {} && (step.Draw? ==> id != c.lastId + 1)
    ensures id in c'.calls <==> id in c.calls
    ensures id in c.calls ==>
              && c'.calls[id].phase == c.calls[id].phase && c'.calls[id].code == c.calls[id].code
              && (id in c'.calls[id].sem.expired <==> id in c.calls[id].sem.expired)
  {
    if step.OnMsg? && step.m.id in c.semMap {
      PointerIsAlive(c, step.m.id);
    }
  }

  lemma BeginLife(c: Client, step: SyncRpc.Step, c': Client, id: Id, k: set<Deed>)
    requires Inv(c) && SyncRpc.Next(c, step, c') && LifeOk(c, id, k)
    requires step == Register(id) || step == SendWorks(id) || (step.SendFails? && step.id == id)
    ensures LifeOk(c', id, k + DeedsOf(step, id))
  {
  }

  lemma EnterLife(c: Client, step: SyncRpc.Step, c': Client, id: Id, k: set<Deed>)
    requires Inv(c) && SyncRpc.Next(c, step, c') && LifeOk(c, id, k) && step.BeginWait? && step.id == id
    ensures LifeOk(c', id, k + {Waits})
  {
    assert CallOk(c, id);
  }

  lemma WakeLife(c: Client, c': Client, id: Id, k: set<Deed>)
    requires SyncRpc.Next(c, WakeUp(id), c') && LifeOk(c, id, k) && OwnSemaphore(id, c.calls[id])
    ensures LifeOk(c', id, k + {Wakes})
  {
    assert id !in c.calls[id].sem.expired;
    assert k == {Registers, SendOk, Waits};
  }

  lemma ExpireLife(c: Client, c': Client, id: Id, k: set<Deed>)
    requires SyncRpc.Next(c, TimeOut(id), c') && LifeOk(c, id, k) && OwnSemaphore(id, c.calls[id])
    ensures LifeOk(c', id, k + {Expires})
  {
    assert id !in c.calls[id].sem.expired;
    assert k == {Registers, SendOk, Waits};
  }

  lemma GiveUpLife(c: Client, c': Client, id: Id, k: set<Deed>)
    requires SyncRpc.Next(c, GiveUpWait(id), c') && LifeOk(c, id, k)
    ensures LifeOk(c', id, k + {GivesUp})
  {
    assert k == {Registers, SendOk, Waits} + {Expires};
  }

  lemma LeaveLife(c: Client, step: SyncRpc.Step, c': Client, id: Id, k: set<Deed>)
    requires Inv(c) && SyncRpc.Next(c, step, c') && LifeOk(c, id, k)
    requires step == WakeUp(id) || step == TimeOut(id) || step == GiveUpWait(id)
    ensures LifeOk(c', id, k + DeedsOf(step, id))
  {
    assert CallOk(c, id);
    if step.WakeUp? {
      WakeLife(c, c', id, k);
    } else if step.TimeOut? {
      ExpireLife(c, c', id, k);
    } else {
      GiveUpLife(c, c', id, k);
    }
  }

  lemma EndLife(c: Client, step: SyncRpc.Step, c': Client, id: Id, k: set<Deed>)
    requires Inv(c) && SyncRpc.Next(c, step, c') && LifeOk(c, id, k) && (step == Take(id) || step == CleanUp(id))
    ensures LifeOk(c', id, k + DeedsOf(step, id))
  {
    if step.Take? {
      WonHasAnswer(c, id);
    }
  }

  lemma LifeStep(c: Client, step: SyncRpc.Step, c': Client, id: Id, k: set<Deed>)
    requires Inv(c) && SyncRpc.Next(c, step, c') && LifeOk(c, id, k)
    ensures LifeOk(c', id, k + DeedsOf(step, id))
  {
    if DeedsOf(step, id) == {} {
      if step.Draw? && id == c.lastId + 1 {
        assert CallOk(c, id);
      } else {
        OthersLeaveLife(c, step, c', id);
      }
      assert k + {} == k;
    } else if step.Register? || step.SendWorks? || step.SendFails? {
      BeginLife(c, step, c', id, k);
    } else if step.Take? || step.CleanUp? {
      EndLife(c, step, c', id, k);
    } else if step.BeginWait? {
      EnterLife(c, step, c', id, k);
    } else {
      LeaveLife(c, step, c', id, k);
    }
  }

  /** In every run, what a call has done tells exactly where it is and which error code it has. */
  lemma {:induction false} Lifecycle(cs: seq<Client>, steps: seq<SyncRpc.Step>, i: nat, id: Id)
    requires SyncRpc.IsRun(cs, steps) && i <= |steps|
    ensures LifeOk(cs[i], id, Deeds(steps, i, id))
  {
    if i > 0 {
      Lifecycle(cs, steps, i - 1, id);
      SyncRpc.RunKeepsInv(cs, steps, i - 1);
      assert SyncRpc.Next(cs[i - 1], steps[i - 1], cs[i]);
      LifeStep(cs[i - 1], steps[i - 1], cs[i], id, Deeds(steps, i - 1, id));
    }
  }

  lemma {:induction false} DeedsGrow(steps: seq<SyncRpc.Step>, i: nat, j: nat, id: Id)
    requires i <= j <= |steps|
    ensures Deeds(steps, i, id) <= Deeds(steps, j, id)
  {
    if i < j {
      DeedsGrow(steps, i, j - 1, id);
    }
  }

  /** A call that has returned waited exactly if its send worked, and has the error code of the way it took. */
  lemma ReturnCodes(cs: seq<Client>, steps: seq<SyncRpc.Step>, i: nat, id: Id)
    requires SyncRpc.IsRun(cs, steps) && i <= |steps| && At(cs[i], id, Returned)
    ensures var call, k := cs[i].calls[id], Deeds(steps, i, id);
            && (Waits in k <==> SendOk in k)
            && (call.code == Some(0) <==> Takes in k) && (call.answer.Some? <==> Takes in k)
            && (GivesUp in k ==> call.code == Some(-13))
            && (forall e :: SendError(e) in k ==> call.code == Some(e) && e != 0)
            && (Takes in k || GivesUp in k || (call.code.Some? && SendError(call.code.value) in k))
            && !(Takes in k && GivesUp in k) && (SendOk in k ==> forall e :: SendError(e) !in k)
  {
    Lifecycle(cs, steps, i, id);
    SyncRpc.RunKeepsInv(cs, steps, i);
    assert CallOk(cs[i], id);
  }

  /**
   After a send that fails the clean-up can be taken at once, and in every later state nobody has
   waited on the semaphore of the call, which has no answer and the error code of the send.
   */
  lemma FailedSend(cs: seq<Client>, steps: seq<SyncRpc.Step>, i: nat, j: nat, id: Id, error: int)
    requires SyncRpc.IsRun(cs, steps) && i < j <= |steps| && steps[i] == SendFails(id, error)
    ensures CanStep(cs[i + 1], CleanUp(id))
    ensures id in cs[j].calls
    ensures var call := cs[j].calls[id];
            && (call.phase == Failed || call.phase == Returned)
            && call.sem.count == call.sem.released && call.sem.won == 0 && !Inside(call.sem, id)
            && call.sem.blocked == {} && call.sem.signalled == {} && call.sem.expired == {}
            && call.answer == None && call.code == Some(error)
  {
    assert SyncRpc.Next(cs[i], SendFails(id, error), cs[i + 1]);
    assert SendError(error) in Deeds(steps, i + 1, id);
    DeedsGrow(steps, i + 1, j, id);
    Lifecycle(cs, steps, j, id);
    SyncRpc.RunKeepsInv(cs, steps, j);
    ErrorLife(cs[j], id, Deeds(steps, j, id), error);
    FailedRests(cs[j], id);
    SyncRpc.RunKeepsInv(cs, steps, i);
    AfterError(cs[i], id, error, cs[i + 1]);
  }

  lemma AfterError(c: Client, id: Id, error: int, c': Client)
    requires SyncRpc.Next(c, SendFails(id, error), c')
    ensures CanStep(c', CleanUp(id))
  {
  }

  lemma ErrorLife(c: Client, id: Id, k: set<Deed>, error: int)
    requires LifeOk(c, id, k) && SendError(error) in k
    ensures id in c.calls && (c.calls[id].phase == Failed || c.calls[id].phase == Returned)
    ensures c.calls[id].code == Some(error) && error != 0
  {
  }

  lemma FailedRests(c: Client, id: Id)
    requires Inv(c) && id in c.calls && (c.calls[id].phase == Failed || c.calls[id].phase == Returned)
    requires c.calls[id].code != Some(0)
    ensures var call := c.calls[id];
            && call.sem.blocked == {} && call.sem.signalled == {} && call.sem.expired == {} && call.sem.won == 0
            && call.sem.count == call.sem.released && call.answer == None
  {
    assert CallOk(c, id);
    var sem := c.calls[id].sem;
    assert id !in sem.blocked && id !in sem.signalled && id !in sem.expired;
    assert sem.blocked == {} && sem.signalled == {} && sem.expired == {};
  }

  // ----- nobody is stuck, and no answer is missed

  /**
   In every state of every run a call that has not returned can take a step of its own, or is blocked
   with no message arrived for it. An untimed wait ends with the first such message, a timed one also
   by its timeout.
   */
  lemma CallCanGoOn(cs: seq<Client>, steps: seq<SyncRpc.Step>, i: nat, id: Id)
    requires SyncRpc.IsRun(cs, steps) && i <= |steps| && id in cs[i].calls && cs[i].calls[id].phase != Returned
    ensures var c := cs[i];
            || CanStep(c, Register(id)) || CanStep(c, SendWorks(id)) || CanStep(c, BeginWait(id, true))
            || CanStep(c, WakeUp(id)) || CanStep(c, GiveUpWait(id)) || CanStep(c, Take(id)) || CanStep(c, CleanUp(id))
            || (id in c.calls[id].sem.blocked && c.calls[id].sem.released == 0)
    ensures At(cs[i], id, Registered) ==> CanStep(cs[i], SendWorks(id)) && CanStep(cs[i], SendFails(id, 1))
  {
    SyncRpc.RunKeepsInv(cs, steps, i);
    assert CallOk(cs[i], id);
    if id in cs[i].calls[id].sem.blocked {
      BlockedHasNoMessage(id, cs[i].calls[id]);
    }
  }

  lemma BlockedHasNoMessage(id: Id, call: Call)
    requires OwnSemaphore(id, call) && id in call.sem.blocked
    ensures call.sem.released == 0
  {
    var s := call.sem;
    assert s.blocked == {id};
    assert id !in s.signalled && id !in s.expired;
    assert s.signalled == {} && s.expired == {};
  }

  /** The messages with number `id` that have arrived while the call was registered. */
  function Arrivals(cs: seq<Client>, steps: seq<SyncRpc.Step>, i: nat, id: Id): (n: nat)
    requires i <= |steps| < |cs|
  {
    if i == 0 then 0
    else
      var step := steps[i - 1];
      Arrivals(cs, steps, i - 1, id) +
      if step.OnMsg? && step.m.id == id && IsRegistered(cs[i - 1], id) then 1 else 0
  }

  ghost function ReleasedOf(c: Client, id: Id): (n: nat) {
    if id in c.calls then c.calls[id].sem.released else 0
  }

  lemma ReleasesStep(c: Client, step: SyncRpc.Step, c': Client, id: Id)
    requires Inv(c) && SyncRpc.Next(c, step, c')
    ensures ReleasedOf(c', id) ==
            ReleasedOf(c, id) + if step.OnMsg? && step.m.id == id && IsRegistered(c, id) then 1 else 0
  {
    assert CallOk(c, id);
    if step.OnMsg? && step.m.id in c.semMap {
      PointerIsAlive(c, step.m.id);
      assert CallOk(c, step.m.id);
    }
    if step.Draw? {
      assert CallOk(c, c.lastId + 1);
    }
  }

  /** Each such message releases the call's semaphore, and nothing else does. */
  lemma {:induction false} EveryMessageReleases(cs: seq<Client>, steps: seq<SyncRpc.Step>, i: nat, id: Id)
    requires SyncRpc.IsRun(cs, steps) && i <= |steps|
    ensures ReleasedOf(cs[i], id) == Arrivals(cs, steps, i, id)
  {
    if i > 0 {
      EveryMessageReleases(cs, steps, i - 1, id);
      SyncRpc.RunKeepsInv(cs, steps, i - 1);
      assert SyncRpc.Next(cs[i - 1], steps[i - 1], cs[i]);
      ReleasesStep(cs[i - 1], steps[i - 1], cs[i], id);
    }
  }

  /** So a call blocked in its wait has had no answer: no answer is missed. */
  lemma NoAnswerMissed(cs: seq<Client>, steps: seq<SyncRpc.Step>, i: nat, id: Id)
    requires SyncRpc.IsRun(cs, steps) && i <= |steps| && id in cs[i].calls && id in cs[i].calls[id].sem.blocked
    ensures Arrivals(cs, steps, i, id) == 0
  {
    SyncRpc.RunKeepsInv(cs, steps, i);
    assert CallOk(cs[i], id);
    BlockedHasNoMessage(id, cs[i].calls[id]);
    EveryMessageReleases(cs, steps, i, id);
  }
}
