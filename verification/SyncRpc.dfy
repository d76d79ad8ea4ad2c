/**
 Synchronous calls over the frame (SocketExams/libuvClient_test/MyClient.cpp, lines 112-139, 246-257
 and 259-321): a call registers its semaphore under its request number, sends, waits, takes the
 answer and cleans up; the receiving thread stores an answer and releases the semaphore. Each step is
 a stretch of code under `m_reqSemLock` or under the semaphore's mutex.
 */
module SyncRpc {
  import opened Common
  import opened Semaphore
  import Frame

  type Id = nat

  /** How far a call of `SyncSend` is. */
  datatype Phase = Drawn | Registered | Sent | Waiting | Won | Failed | Taken | Returned

  /**
   A call, with the semaphore on its stack; the semaphore is gone once the call has returned.
   `answer` is what it took from the result map, and `code` the error code it will return.
   */
  datatype Call = Call(phase: Phase, sem: Sem, answer: Option<string>, code: Option<int>)

  /** `RJ_E_TIMEOUT`; `RJ_S_OK` and `RJ_NOERROR` are 0. */
  const TIMEOUT_CODE: int := -13

  datatype Arrival = Arrival(id: int, body: string)

  /**
   The client. `semMap` maps a number to a pointer to a semaphore, which is the number of the call
   whose semaphore it is; `queue` is the vector of messages for the dispatcher, and `log` all
   messages that have arrived.
   */
  datatype Client = Client(
    lastId: nat, calls: map<Id, Call>, semMap: map<int, Id>, results: map<int, string>,
    queue: seq<Arrival>, log: seq<Arrival>)

  /** What `OnMsg` makes of a frame: its number, and all behind the number (lines 114-132). */
  function Arrived(frame: string): (m: Option<Arrival>) {
    if |frame| <= Frame.HEAD_LENGTH then None
    else Some(Arrival(Frame.Atoi(Frame.CString(frame[..Frame.REQ_ID_LENGTH - 1])), frame[Frame.REQ_ID_LENGTH..]))
  }

  /** What `SyncSend` makes of a stored answer (lines 284-285). */
  function ResultCmd(body: string): (cmd: string) {
    if |body| <= Frame.CMD_LENGTH then Frame.CString(body) else Frame.CString(body[..Frame.CMD_LENGTH])
  }

  function ResultValue(body: string): (value: string) {
    if |body| <= Frame.CMD_LENGTH then [] else body[Frame.CMD_LENGTH..]
  }

  function Start(): (c: Client) {
    Client(0, map[], map[], map[], [], [])
  }

  // ----- the steps

  datatype Step =
    | Draw
    | Register(id: Id)
    | SendFails(id: Id, error: int)
    | SendWorks(id: Id)
    | BeginWait(id: Id, timed: bool)
    | WakeUp(id: Id)
    | TimeOut(id: Id)
    | GiveUpWait(id: Id)
    | Take(id: Id)
    | CleanUp(id: Id)
    | OnMsg(m: Arrival)

  predicate At(c: Client, id: Id, phase: Phase) {
    id in c.calls && c.calls[id].phase == phase
  }

  predicate CanStep(c: Client, step: Step) {
    match step
    case Draw => true
    case Register(id) => At(c, id, Drawn)
    case SendFails(id, error) => At(c, id, Registered) && error != 0
    case SendWorks(id) => At(c, id, Registered)
    case BeginWait(id, _) => At(c, id, Sent)
    case WakeUp(id) => At(c, id, Waiting) && id in c.calls[id].sem.signalled
    case TimeOut(id) => At(c, id, Waiting) && id in c.calls[id].sem.blocked && id in c.calls[id].sem.timed
    case GiveUpWait(id) => At(c, id, Waiting) && id in c.calls[id].sem.expired
    case Take(id) => At(c, id, Won)
    case CleanUp(id) => At(c, id, Taken) || At(c, id, Failed)
    case OnMsg(_) => true
  }

  function SetCall(c: Client, id: Id, call: Call): (c': Client) {
    c.(calls := c.calls[id := call])
  }

  /** The call with its semaphore a step further. */
  function Moved(call: Call, phase: Phase, sem: Sem, code: Option<int>): (r: Call) {
    call.(phase := phase, sem := sem, code := code)
  }

  /** `Wait` up to the condition variable, and to its end if the counter allows (line 275). */
  function Begun(call: Call, id: Id, timed: bool): (r: Call) {
    var sem := Entered(call.sem, id, timed);
    if sem.count >= 0 then Moved(call, Won, sem, Some(0)) else Moved(call, Waiting, sem, call.code)
  }

  /** Lines 261-262: a number not used before, and a semaphore. */
  function Drawing(c: Client): (c': Client) {
    SetCall(c, c.lastId + 1, Call(Drawn, New(0), None, None)).(lastId := c.lastId + 1)
  }

  /** Line 264: `insert` keeps an entry that is there. */
  function Registering(c: Client, id: Id): (c': Client)
    requires id in c.calls
  {
    SetCall(c, id, c.calls[id].(phase := Registered)).(semMap := if id in c.semMap then c.semMap
        else c.semMap[id := id])
  }

  /** Lines 279-288. */
  function Taking(c: Client, id: Id): (c': Client)
    requires id in c.calls
  {
    var call := c.calls[id];
    if id in c.results then
      SetCall(c, id, Call(Taken, call.sem, Some(c.results[id]), call.code)).(results := c.results - {id})
    else SetCall(c, id, call.(phase := Taken))
  }

  /** Lines 304-320. */
  function Cleaning(c: Client, id: Id): (c': Client)
    requires id in c.calls
  {
    SetCall(c, id, c.calls[id].(phase := Returned)).(semMap := c.semMap - {id}, results := c.results - {id})
  }

  /**
   The receiving thread with a decoded message (lines 126-147); a pointer to a semaphore that is gone is not followed.
   */
  function Receiving(c: Client, m: Arrival): (c': Client) {
    var c1 := c.(log := c.log + [m]);
    if m.id != 0 && m.id in c.semMap then
      var p := c.semMap[m.id];
      if p in c.calls && c.calls[p].phase != Returned then
        SetCall(c1, p, c.calls[p].(sem := ReleasedOne(c.calls[p].sem, p))).(results := c.results[m.id := m.body])
      else c1
    else c1.(queue := c.queue + [m])
  }

  function Do(c: Client, step: Step): (c': Client)
    requires CanStep(c, step)
  {
    match step
    case Draw => Drawing(c)
    case Register(id) => Registering(c, id)
    case SendFails(id, error) => SetCall(c, id, c.calls[id].(phase := Failed, code := Some(error)))
    case SendWorks(id) => SetCall(c, id, c.calls[id].(phase := Sent))
    case BeginWait(id, timed) => SetCall(c, id, Begun(c.calls[id], id, timed))
    case WakeUp(id) => SetCall(c, id, Moved(c.calls[id], Won, Woken(c.calls[id].sem, id), Some(0)))
    case TimeOut(id) => SetCall(c, id, Moved(c.calls[id], Waiting, Expired(c.calls[id].sem, id), c.calls[id].code))
    case GiveUpWait(id) =>
      SetCall(c, id, Moved(c.calls[id], Failed, GivenUp(c.calls[id].sem, id), Some(TIMEOUT_CODE)))
    case Take(id) => Taking(c, id)
    case CleanUp(id) => Cleaning(c, id)
    case OnMsg(m) => Receiving(c, m)
  }

  ghost predicate Next(c: Client, step: Step, c': Client) {
    CanStep(c, step) && c' == Do(c, step)
  }

  ghost predicate IsRun(cs: seq<Client>, steps: seq<Step>) {
    && |cs| == |steps| + 1 && cs[0] == Start()
    && forall i :: 0 <= i < |steps| ==> Next(cs[i], steps[i], cs[i + 1])
  }

  // ----- what every step keeps

  /** Between registering and cleaning up. */
  predicate IsRegistered(c: Client, id: int) {
    id >= 0 && id in c.calls && c.calls[id].phase != Drawn && c.calls[id].phase != Returned
  }

  /** The body of the last message with number `id`. */
  function LastBody(log: seq<Arrival>, id: int): (r: Option<string>) {
    if log == [] then None
    else if log[|log| - 1].id == id then Some(log[|log| - 1].body)
    else LastBody(log[..|log| - 1], id)
  }

  /** Nobody but the call itself uses its semaphore. */
  ghost predicate OwnSemaphore(id: Id, call: Call) {
    && Balanced(call.sem) && call.sem.init == 0
    && call.sem.blocked <= {id} && call.sem.signalled <= {id} && call.sem.expired <= {id}
    && (call.phase == Waiting <==> Inside(call.sem, id))
    && (call.sem.won > 0 <==> call.code == Some(0)) && CodeOk(call)
    && (call.phase in {Drawn, Registered, Sent} || id in call.sem.blocked ==>
          call.sem.wasted == 0 && call.sem.regained == 0)
  }

  /** A call has an error code once it is decided. */
  predicate CodeOk(call: Call) {
    match call.phase
    case Drawn => call.code == None
    case Registered => call.code == None
    case Sent => call.code == None
    case Waiting => call.code == None
    case Won => call.code == Some(0)
    case Failed => call.code.Some? && call.code.value != 0
    case Taken => call.code == Some(0)
    case Returned => call.code.Some?
  }

  /** Where the answer of call `id` is. */
  ghost predicate AnswerOk(c: Client, id: Id, call: Call) {
    && (call.phase == Drawn ==> call.sem.released == 0)
    && (call.phase in {Registered, Sent, Waiting, Won} && call.sem.released > 0 ==> id in c.results)
    && (call.phase in {Taken, Returned} && call.sem.won > 0 ==> call.answer.Some?)
    && (call.answer.Some? ==> call.phase in {Taken, Returned} && call.sem.won > 0)
    && (call.answer.Some? ==> Arrival(id, call.answer.value) in c.log)
  }

  ghost predicate CallOk(c: Client, id: Id) {
    id in c.calls ==> 0 < id <= c.lastId && OwnSemaphore(id, c.calls[id]) && AnswerOk(c, id, c.calls[id])
  }

  /**
   The maps: exactly the registered calls have an entry, to their own semaphore; answers belong to registered calls.
   */
  ghost predicate MapsOk(c: Client) {
    && (forall id :: id in c.semMap <==> IsRegistered(c, id))
    && (forall id :: id in c.semMap ==> c.semMap[id] == id)
    && (forall id :: id in c.results ==> id in c.semMap && Some(c.results[id]) == LastBody(c.log, id))
  }

  ghost predicate Inv(c: Client) {
    MapsOk(c) && forall id :: CallOk(c, id)
  }

  /** A step of one registered call that changes neither map. */
  lemma LocalKeepsInv(c: Client, id: Id, call: Call)
    requires Inv(c) && IsRegistered(c, id) && call.phase != Drawn && call.phase != Returned
    requires OwnSemaphore(id, call) && AnswerOk(c, id, call)
    ensures Inv(SetCall(c, id, call))
  {
    var c' := SetCall(c, id, call);
    assert CallOk(c, id);
    forall x
      ensures CallOk(c', x)
    {
      assert CallOk(c, x);
    }
    assert MapsOk(c');
  }

  lemma EnterKeepsOwn(id: Id, call: Call, timed: bool)
    requires OwnSemaphore(id, call) && call.phase == Sent
    ensures OwnSemaphore(id, Begun(call, id, timed))
  {
    EnterKeepsBalance(call.sem, id, timed);
  }

  lemma LeaveKeepsOwn(id: Id, call: Call)
    requires OwnSemaphore(id, call) && call.phase == Waiting
    ensures id in call.sem.signalled ==> OwnSemaphore(id, Moved(call, Won, Woken(call.sem, id), Some(0)))
    ensures id in call.sem.blocked ==> OwnSemaphore(id, Moved(call, Waiting, Expired(call.sem, id), call.code))
    ensures id in call.sem.expired ==> 
              OwnSemaphore(id, Moved(call, Failed, GivenUp(call.sem, id), Some(TIMEOUT_CODE)))
  {
    if id in call.sem.expired {
      GiveUpKeepsBalance(call.sem, id);
    }
    if id in call.sem.signalled {
      WakeKeepsBalance(call.sem, id);
    }
    if id in call.sem.blocked {
      ExpireKeepsBalance(call.sem, id);
    }
  }

  lemma WaitingKeepsInv(c: Client, step: Step, id: Id)
    requires Inv(c) && CanStep(c, step)
    requires step.BeginWait? || step.WakeUp? || step.TimeOut? || step.GiveUpWait?
    requires id == step.id
    ensures Inv(Do(c, step))
  {
    var call := c.calls[id];
    assert CallOk(c, id);
    if step.BeginWait? {
      EnterKeepsOwn(id, call, step.timed);
    } else {
      LeaveKeepsOwn(id, call);
    }
    LocalKeepsInv(c, id, Do(c, step).calls[id]);
  }

  lemma DrawKeepsInv(c: Client)
    requires Inv(c)
    ensures Inv(Do(c, Draw))
  {
    var c' := Do(c, Draw);
    assert CallOk(c, c.lastId + 1);
    forall x
      ensures CallOk(c', x)
    {
      assert CallOk(c, x);
    }
    assert MapsOk(c');
  }

  lemma RegisterKeepsInv(c: Client, id: Id)
    requires Inv(c) && At(c, id, Drawn)
    ensures Inv(Registering(c, id))
  {
    var c' := Registering(c, id);
    forall x
      ensures CallOk(c', x)
    {
      assert CallOk(c, x);
    }
    assert !IsRegistered(c, id);
    assert MapsOk(c');
  }

  /** A call that has won finds its answer. */
  lemma WonHasAnswer(c: Client, id: Id)
    requires Inv(c) && At(c, id, Won)
    ensures id in c.results
  {
    assert CallOk(c, id);
    NoMoreThanReleased(c.calls[id].sem);
  }

  lemma {:induction false} LastBodyArrived(log: seq<Arrival>, id: int)
    ensures LastBody(log, id).Some? ==> Arrival(id, LastBody(log, id).value) in log
  {
    if log != [] {
      LastBodyArrived(log[..|log| - 1], id);
    }
  }

  lemma TakeKeepsInv(c: Client, id: Id)
    requires Inv(c) && At(c, id, Won)
    ensures Inv(Taking(c, id))
  {
    WonHasAnswer(c, id);
    LastBodyArrived(c.log, id);
    var c' := Taking(c, id);
    forall x
      ensures CallOk(c', x)
    {
      assert CallOk(c, x);
    }
    assert MapsOk(c');
  }

  lemma CleanUpKeepsInv(c: Client, id: Id)
    requires Inv(c) && CanStep(c, CleanUp(id))
    ensures Inv(Cleaning(c, id))
  {
    var c' := Cleaning(c, id);
    forall x
      ensures CallOk(c', x)
    {
      assert CallOk(c, x);
    }
    assert MapsOk(c');
  }

  lemma LastBodyAppend(log: seq<Arrival>, m: Arrival, id: int)
    ensures LastBody(log + [m], id) == if m.id == id then Some(m.body) else LastBody(log, id)
  {
    assert (log + [m])[..|log|] == log;
  }

  lemma ReleaseKeepsOwn(id: Id, call: Call)
    requires OwnSemaphore(id, call)
    ensures OwnSemaphore(id, call.(sem := ReleasedOne(call.sem, id)))
  {
    ReleaseKeepsBalance(call.sem, id);
  }

  /** The pointer that `OnMsg` follows leads to the semaphore of a call that has not returned. */
  lemma PointerIsAlive(c: Client, id: int)
    requires Inv(c) && id in c.semMap
    ensures c.semMap[id] == id && id in c.calls && c.calls[id].phase != Returned && c.calls[id].phase != Drawn
  {
  }

  lemma ReceiveKeepsMaps(c: Client, m: Arrival)
    requires Inv(c)
    ensures MapsOk(Receiving(c, m))
  {
    var c' := Receiving(c, m);
    if m.id in c.semMap {
      PointerIsAlive(c, m.id);
    }
    forall id
      ensures IsRegistered(c', id) == IsRegistered(c, id)
    {
    }
    forall id | id in c'.results
      ensures id in c'.semMap && Some(c'.results[id]) == LastBody(c'.log, id)
    {
      LastBodyAppend(c.log, m, id);
      assert id in c.semMap;
      PointerIsAlive(c, id);
      assert CallOk(c, id);
    }
  }

  lemma ReceiveKeepsInv(c: Client, m: Arrival)
    requires Inv(c)
    ensures Inv(Receiving(c, m))
  {
    var c' := Receiving(c, m);
    ReceiveKeepsMaps(c, m);
    if m.id in c.semMap {
      PointerIsAlive(c, m.id);
      assert CallOk(c, m.id);
      ReleaseKeepsOwn(m.id, c.calls[m.id]);
    }
    forall x
      ensures CallOk(c', x)
    {
      assert CallOk(c, x);
    }
  }

  lemma NextKeepsInv(c: Client, step: Step, c': Client)
    requires Inv(c) && Next(c, step, c')
    ensures Inv(c')
  {
    match step
    case Draw => DrawKeepsInv(c);
    case Register(id) => RegisterKeepsInv(c, id);
    case SendFails(id, error) =>
      assert CallOk(c, id);
      LocalKeepsInv(c, id, c.calls[id].(phase := Failed, code := Some(error)));
    case SendWorks(id) =>
      assert CallOk(c, id);
      LocalKeepsInv(c, id, c.calls[id].(phase := Sent));
    case Take(id) => TakeKeepsInv(c, id);
    case CleanUp(id) => CleanUpKeepsInv(c, id);
    case OnMsg(m) => ReceiveKeepsInv(c, m);
    case BeginWait(id, _) => WaitingKeepsInv(c, step, id);
    case WakeUp(id) => WaitingKeepsInv(c, step, id);
    case TimeOut(id) => WaitingKeepsInv(c, step, id);
    case GiveUpWait(id) => WaitingKeepsInv(c, step, id);
  }

  lemma {:induction false} RunKeepsInv(cs: seq<Client>, steps: seq<Step>, i: nat)
    requires IsRun(cs, steps) && i <= |steps|
    ensures Inv(cs[i])
  {
    if i > 0 {
      RunKeepsInv(cs, steps, i - 1);
      NextKeepsInv(cs[i - 1], steps[i - 1], cs[i]);
    }
  }

  // ----- the theorems

  /**
   In every interleaving: stored answers belong to registered calls, registered are exactly the calls
   between registering and cleaning up, and every stored pointer leads to the semaphore of the call
   with that number, which has not returned.
   */
  lemma MapsMatchCalls(cs: seq<Client>, steps: seq<Step>, i: nat)
    requires IsRun(cs, steps) && i <= |steps|
    ensures var c := cs[i];
            && c.results.Keys <= c.semMap.Keys
            && (forall id :: id in c.semMap <==> IsRegistered(c, id))
            && (forall id :: id in c.semMap ==> c.semMap[id] == id && id in c.calls && c.calls[id].phase != Returned)
  {
    RunKeepsInv(cs, steps, i);
    var c := cs[i];
    forall id | id in c.results.Keys
      ensures id in c.semMap.Keys
    {
      assert id in c.results;
    }
  }

  /**
   In every interleaving a call whose wait succeeded returns the body of a message with its own number, and any other
   returns nothing.
   */
  lemma OwnAnswer(cs: seq<Client>, steps: seq<Step>, i: nat, id: Id)
    requires IsRun(cs, steps) && i <= |steps| && At(cs[i], id, Returned)
    ensures var call := cs[i].calls[id];
            && (call.answer.Some? <==> call.sem.won > 0)
            && (call.answer.Some? ==> Arrival(id, call.answer.value) in cs[i].log)
  {
    RunKeepsInv(cs, steps, i);
    assert CallOk(cs[i], id);
  }

  /** What a call takes is the last message with its number so far. */
  lemma TakesLatest(cs: seq<Client>, steps: seq<Step>, i: nat, id: Id)
    requires IsRun(cs, steps) && i < |steps| && steps[i] == Take(id)
    ensures id in cs[i + 1].calls && cs[i + 1].calls[id].answer == LastBody(cs[i].log, id) &&
              cs[i + 1].calls[id].answer.Some?
    ensures id !in cs[i + 1].results && cs[i + 1].calls[id].phase == Taken
  {
    RunKeepsInv(cs, steps, i);
    assert Next(cs[i], steps[i], cs[i + 1]);
    WonHasAnswer(cs[i], id);
  }

  /** A message goes to the dispatcher exactly when no registered call has its number. */
  lemma Routed(cs: seq<Client>, steps: seq<Step>, i: nat, m: Arrival)
    requires IsRun(cs, steps) && i < |steps| && steps[i] == OnMsg(m)
    ensures cs[i + 1].queue == if IsRegistered(cs[i], m.id) then cs[i].queue else cs[i].queue + [m]
    ensures IsRegistered(cs[i], m.id) ==> m.id in cs[i + 1].results && cs[i + 1].results[m.id] == m.body
  {
    RunKeepsInv(cs, steps, i);
    assert Next(cs[i], steps[i], cs[i + 1]);
    if m.id in cs[i].semMap {
      PointerIsAlive(cs[i], m.id);
      assert CallOk(cs[i], m.id);
    }
  }

  /** When all calls have returned, both maps are empty: nothing leaks. */
  lemma NothingLeaks(cs: seq<Client>, steps: seq<Step>, i: nat)
    requires IsRun(cs, steps) && i <= |steps|
    requires forall id :: id in cs[i].calls ==> cs[i].calls[id].phase == Returned
    ensures cs[i].semMap == map[] && cs[i].results == map[]
  {
    RunKeepsInv(cs, steps, i);
    var c := cs[i];
    forall id
      ensures id !in c.semMap && id !in c.results
    {
      assert !IsRegistered(c, id);
    }
  }

  // ----- through the frame and the server

  /** `OnMsg` and `SyncSend` together decode a frame as the codec says. */
  lemma ArrivedDecodes(frame: string)
    ensures Arrived(frame).None? <==> Frame.ClientDecode(frame).Refused?
    ensures Arrived(frame).Some? ==>
              var m := Arrived(frame).value;
              Frame.ClientDecode(frame) == Frame.Read(Frame.Message(m.id, ResultCmd(m.body), ResultValue(m.body)))
  {
    if |frame| > Frame.HEAD_LENGTH {
      var body := frame[Frame.REQ_ID_LENGTH..];
      assert body[..Frame.CMD_LENGTH] == frame[Frame.REQ_ID_LENGTH..Frame.HEAD_LENGTH];
      assert body[Frame.CMD_LENGTH..] == frame[Frame.HEAD_LENGTH..];
    }
  }

  /**
   `m` is what arrives when the server echoes an `STX_COMMAND` request `id` with `payload`, whatever the two buffers
   held before.
   */
  ghost predicate IsEchoOf(m: Arrival, id: nat, payload: string) {
    exists filler, filler' ::
      && |filler| == |filler'| == Frame.HEAD_LENGTH + |payload| && Frame.FitsBuffer(id, Frame.STX_COMMAND, |filler|)
      && var answer := Frame.Echo(Frame.Encode(filler, id, Frame.STX_COMMAND, payload), filler');
      answer.Frame? && Arrived(answer.frame) == Some(m)
  }

  /** `m` is the echo of one of the requests so far. */
  ghost predicate IsSomeEcho(m: Arrival, lastId: nat, payload: nat -> string) {
    exists j :: 0 < j <= lastId && payload(j) != [] && IsEchoOf(m, j, payload(j))
  }

  lemma EchoComesBack(m: Arrival, id: nat, payload: string)
    requires IsEchoOf(m, id, payload) && id < 100_000_000 && payload != []
    ensures m.id == id && ResultCmd(m.body) == Frame.STX_COMMAND && ResultValue(m.body) == payload
  {
    var filler, filler' :|
      && |filler| == |filler'| == Frame.HEAD_LENGTH + |payload| && Frame.FitsBuffer(id, Frame.STX_COMMAND, |filler|)
      && var answer := Frame.Echo(Frame.Encode(filler, id, Frame.STX_COMMAND, payload), filler');
      answer.Frame? && Arrived(answer.frame) == Some(m);
    Frame.EchoReadsExactly(filler, filler', id, payload);
    ArrivedDecodes(Frame.Echo(Frame.Encode(filler, id, Frame.STX_COMMAND, payload), filler').frame);
  }

  /**
   End to end: if every message that arrives is the echo of some request, and request `id` carried
   `payload(id)`, then in every interleaving a call that gets an answer gets its own payload back.
   */
  lemma SyncCallEchoes(cs: seq<Client>, steps: seq<Step>, i: nat, id: Id, payload: nat -> string)
    requires IsRun(cs, steps) && i <= |steps| && At(cs[i], id, Returned) && cs[i].calls[id].answer.Some?
    requires cs[i].lastId < 100_000_000
    requires forall m :: m in cs[i].log ==> IsSomeEcho(m, cs[i].lastId, payload)
    ensures var body := cs[i].calls[id].answer.value;
            ResultCmd(body) == "STX_COMMAND" && ResultValue(body) == payload(id)
  {
    OwnAnswer(cs, steps, i, id);
    var m := Arrival(id, cs[i].calls[id].answer.value);
    var j :| 0 < j <= cs[i].lastId && payload(j) != [] && IsEchoOf(m, j, payload(j));
    EchoComesBack(m, j, payload(j));
  }

  // ----- the object

  /** `MyClient` with its two maps and its vector. */
  class MyClient {
    var lastId: nat
    var semMap: map<int, Id>
    var results: map<int, string>
    var queue: seq<Arrival>
    var calls: map<Id, Call>
    ghost var log: seq<Arrival>

    ghost function Now(): (c: Client)
      reads this
    {
      Client(lastId, calls, semMap, results, queue, log)
    }

    constructor ()
      ensures Now() == Start()
    {
      lastId, semMap, results, queue, calls, log := 0, map[], map[], [], map[], [];
    }

    /** `GetSyscReqSem` (lines 246-257). */
    method GetSyscReqSem(reqId: int) returns (p: Option<Id>)
      requires Inv(Now())
      ensures p.Some? <==> IsRegistered(Now(), reqId)
      ensures p.Some? ==> p.value == reqId && p.value in calls && calls[p.value].phase != Returned
    {
      p := if reqId in semMap then Some(semMap[reqId]) else None;
    }

    /** `OnMsg` with a decoded message (lines 126-147). */
    method Receive(m: Arrival)
      requires Inv(Now())
      modifies this`results, this`calls, this`queue, this`log
      ensures Now() == Receiving(old(Now()), m) && Inv(Now())
    {
      ReceiveKeepsInv(Now(), m);
      if m.id != 0 {
        var p := GetSyscReqSem(m.id);
        if p.Some? {
          log := log + [m];
          results := results[m.id := m.body];
          calls := calls[p.value := calls[p.value].(sem := ReleasedOne(calls[p.value].sem, p.value))];
          return;
        }
      }
      log := log + [m];
      queue := queue + [m];
    }

    /** Lines 261-265. */
    method Begin() returns (id: Id)
      requires Inv(Now())
      modifies this`lastId, this`calls, this`semMap
      ensures id == old(lastId) + 1 && Inv(Now())
      ensures Now() == Registering(Drawing(old(Now())), id)
    {
      DrawKeepsInv(Now());
      RegisterKeepsInv(Drawing(Now()), lastId + 1);
      lastId := lastId + 1;
      id := lastId;
      calls := calls[id := Call(Drawn, New(0), None, None)];
      calls := calls[id := calls[id].(phase := Registered)];
      if id !in semMap {
        semMap := semMap[id := id];
      }
    }

    /** Lines 279-288: the answer of a call whose wait succeeded is there. */
    method TakeAnswer(id: Id) returns (cmd: string, value: string)
      requires Inv(Now()) && At(Now(), id, Won)
      modifies this`calls, this`results
      ensures Now() == Taking(old(Now()), id) && Inv(Now())
      ensures id in old(results) && cmd == ResultCmd(old(results)[id]) && value == ResultValue(old(results)[id])
    {
      TakeKeepsInv(Now(), id);
      WonHasAnswer(Now(), id);
      var body := results[id];
      cmd, value := ResultCmd(body), ResultValue(body);
      calls := calls[id := Call(Taken, calls[id].sem, Some(body), calls[id].code)];
      results := results - {id};
    }

    /** Lines 304-320. */
    method Finish(id: Id)
      requires Inv(Now()) && CanStep(Now(), CleanUp(id))
      modifies this`calls, this`semMap, this`results
      ensures Now() == Cleaning(old(Now()), id) && Inv(Now())
      ensures id !in semMap && id !in results
    {
      CleanUpKeepsInv(Now(), id);
      if id in semMap {
        semMap := semMap - {id};
      }
      if id in results {
        results := results - {id};
      }
      calls := calls[id := calls[id].(phase := Returned)];
    }
  }
}
