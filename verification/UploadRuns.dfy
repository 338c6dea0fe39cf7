/** Any number of upload requests that work on the same directory at once. */
module UploadRuns {
  import opened Wrappers
  import opened Utf8
  import opened Upload

  type TaskId = nat

  /** Where a request is; `Failing` still drains the body, with its guard armed. */
  datatype Pc =
    | Looking
    | Creating
    | Receiving(tmp: Tmp, i: nat, size: nat)
    | Flushing(tmp: Tmp, size: nat)
    | Renaming(tmp: Tmp, size: nat)
    | Failing(tmp: Tmp, status: Status)
    | Answered(answer: Result<Response, Status>)

  /** `k` parts are behind the request. */
  datatype Task = Task(request: Request, k: nat, uploaded: Option<Response>, pc: Pc)

  /** History: a rename that put a part under its target. */
  datatype Landing = Landing(task: TaskId, part: nat, target: Name, content: seq<byte>, overwrite: bool)

  /** `creator` is history: which request created a temporary file. */
  datatype State = State(
    targets: map<Name, seq<byte>>,
    temps: map<Tmp, seq<byte>>,
    tasks: map<TaskId, Task>,
    creator: map<Tmp, TaskId>,
    log: seq<Landing>)

  /** `tmp` is the UUID a step draws if it creates a temporary file. */
  datatype Act = Arrive(t: TaskId, request: Request) | Step(t: TaskId, tmp: Tmp)

  function Init(targets: map<Name, seq<byte>>): State {
    State(targets, map[], map[], map[], [])
  }

  // ----- Steps -----

  function Move(g: State, t: TaskId, pc: Pc): State
    requires t in g.tasks
  {
    g.(tasks := g.tasks[t := g.tasks[t].(pc := pc)])
  }

  /** The next part. */
  function Look(g: State, t: TaskId): State
    requires t in g.tasks
  {
    var task := g.tasks[t];
    if |task.request.parts| <= task.k then
      Move(g, t, Answered(if task.uploaded.Some? then Ok(task.uploaded.value) else Err(BadRequest)))
    else
      match task.request.parts[task.k]
      case Garbled => Move(g, t, Answered(Err(BadRequest)))
      case NotAFile => g.(tasks := g.tasks[t := task.(k := task.k + 1)])
      case BadName(status) => Move(g, t, Answered(Err(status)))
      case File(_, target, _, _, _, _) =>
        Move(g, t, if !task.request.overwrite && target in g.targets then Answered(Err(Conflict)) else Creating)
  }

  predicate AtFile(g: State, t: TaskId) {
    t in g.tasks && g.tasks[t].k < |g.tasks[t].request.parts| && g.tasks[t].request.parts[g.tasks[t].k].File?
  }

  function FileOf(g: State, t: TaskId): Part
    requires AtFile(g, t)
  {
    g.tasks[t].request.parts[g.tasks[t].k]
  }

  function CreateTemp(g: State, t: TaskId, tmp: Tmp): State
    requires AtFile(g, t)
  {
    if !FileOf(g, t).creates then Move(g, t, Answered(Err(Internal)))
    else if tmp in g.creator then g
    else Move(g, t, Receiving(tmp, 0, 0)).(temps := g.temps[tmp := []], creator := g.creator[tmp := t])
  }

  function ReceiveOne(g: State, max: nat, t: TaskId, tmp: Tmp, i: nat, size: nat): State
    requires AtFile(g, t) && tmp in g.temps
  {
    var stream := FileOf(g, t).stream;
    if |stream| <= i then Move(g, t, Flushing(tmp, size))
    else
      match stream[i]
      case Broken => Move(g, t, Failing(tmp, BadRequest))
      case Chunk(data, written) =>
        if size + |data| > max then Move(g, t, Failing(tmp, TooLarge))
        else if !written then Move(g, t, Failing(tmp, Internal))
        else Move(g, t, Receiving(tmp, i + 1, size + |data|)).(temps := g.temps[tmp := g.temps[tmp] + data])
  }

  /** The rename, disarming the guard and noting the part as uploaded. */
  function Rename(g: State, t: TaskId, tmp: Tmp, size: nat): State
    requires AtFile(g, t) && tmp in g.temps
  {
    var task := g.tasks[t];
    var part := FileOf(g, t);
    if !part.renames then Move(g, t, Failing(tmp, Internal))
    else if !task.request.overwrite && part.target in g.targets then Move(g, t, Failing(tmp, Conflict))
    else
      State(g.targets[part.target := g.temps[tmp]], g.temps - {tmp},
            g.tasks[t := Task(task.request, task.k + 1, Some(Response(part.filename, size)), Looking)],
            g.creator, g.log + [Landing(t, task.k, part.target, g.temps[tmp], task.request.overwrite)])
  }

  function NextStep(g: State, max: nat, t: TaskId, tmp: Tmp): State
    requires t in g.tasks
  {
    match g.tasks[t].pc
    case Looking => Look(g, t)
    case Creating => if AtFile(g, t) then CreateTemp(g, t, tmp) else g
    case Receiving(own, i, size) => if AtFile(g, t) && own in g.temps then ReceiveOne(g, max, t, own, i, size) else g
    case Flushing(own, size) =>
      if AtFile(g, t) then Move(g, t, if FileOf(g, t).flushes then Renaming(own, size) else Failing(own, Internal))
        else g
    case Renaming(own, size) => if AtFile(g, t) && own in g.temps then Rename(g, t, own, size) else g
    case Failing(own, status) => Move(g, t, Answered(Err(status))).(temps := g.temps - {own})
    case Answered(_) => g
  }

  /** A step that is not possible in the current state changes nothing. */
  function Next(g: State, max: nat, act: Act): State {
    match act
    case Arrive(t, request) =>
      if t in g.tasks then g
      else
        var early := Early(request, max);
        g.(tasks := g.tasks[t := Task(request, 0, None, if early.Some? then Answered(Err(early.value)) else Looking)])
    case Step(t, tmp) => if t in g.tasks then NextStep(g, max, t, tmp) else g
  }

  function Exec(g: State, max: nat, acts: seq<Act>): State {
    if acts == [] then g else Next(Exec(g, max, acts[..|acts| - 1]), max, acts[|acts| - 1])
  }

  // ----- What the landings say -----

  /** The targets after the landings: each puts its content under its name, whole. */
  function Replay(targets: map<Name, seq<byte>>, log: seq<Landing>): map<Name, seq<byte>> {
    if log == [] then targets
    else Replay(targets, log[..|log| - 1])[log[|log| - 1].target := log[|log| - 1].content]
  }

  /** The landings of one request. */
  function Of(log: seq<Landing>, t: TaskId): seq<Landing> {
    if log == [] then []
    else Of(log[..|log| - 1], t) + if log[|log| - 1].task == t then [log[|log| - 1]] else []
  }

  /** The landings that the first `k` parts of a request call for. */
  function Due(t: TaskId, request: Request, k: nat): seq<Landing>
    requires k <= |request.parts|
  {
    if k == 0 then []
    else
      var part := request.parts[k - 1];
      Due(t, request, k - 1) +
      if part.File? then [Landing(t, k - 1, part.target, Data(part.stream), request.overwrite)] else []
  }

  // ----- Invariant -----

  function TempOf(pc: Pc): Option<Tmp> {
    match pc
    case Receiving(tmp, _, _) => Some(tmp)
    case Flushing(tmp, _) => Some(tmp)
    case Renaming(tmp, _) => Some(tmp)
    case Failing(tmp, _) => Some(tmp)
    case _ => None
  }

  predicate TaskOk(names: set<Name>, temps: map<Tmp, seq<byte>>, creator: map<Tmp, TaskId>, max: nat, t: TaskId,
    task: Task) {
    && task.k <= |task.request.parts|
    && Passed(task.request, task.k, max)
    && task.uploaded == Earned(task.request, task.k)
    && (TempOf(task.pc).Some? ==> TempOf(task.pc).value in temps
                                  && TempOf(task.pc).value in creator && creator[TempOf(task.pc).value] == t)
    && match task.pc
       case Looking => true
       case Answered(Ok(r)) => task.k == |task.request.parts| && task.uploaded == Some(r)
       case Answered(Err(status)) => Excused(task, names, max, status)
       case Failing(_, status) => Excused(task, names, max, status) && task.k < |task.request.parts|
       case _ =>
         && task.k < |task.request.parts| && task.request.parts[task.k].File?
         && PartOk(temps, max, task.pc, task.request.parts[task.k])
  }

  /** Why a part may be answered with an error, when the targets have these names. */
  predicate Excuse(part: Part, overwrite: bool, names: set<Name>, max: nat, status: Status) {
    match part
    case Garbled => status == BadRequest
    case NotAFile => false
    case BadName(bad) => status == bad
    case File(_, target, creates, stream, flushes, renames) =>
      || (status == Conflict && !overwrite && target in names)
      || (status == TooLarge && |Data(stream)| > max)
      || (status == BadRequest && Broken in stream)
      || (status == Internal && !(creates && flushes && renames && forall e | e in stream :: e.Chunk? ==> e.written))
  }

  /** A base directory that could not be named, else too large a declared length,
    else a base directory without access. */
  predicate EarlyReason(request: Request, max: nat, status: Status) {
    var tooLong := request.contentLength.Some? && request.contentLength.value > max;
    || request.resolveError == Some(status)
    || (request.resolveError.None? && tooLong && status == TooLarge)
    || (request.resolveError.None? && !tooLong && request.baseError == Some(status))
  }

  /**
  The error is the one answered before the body is read, or the current part's, or that of a request without files.
  */
  predicate Excused(task: Task, names: set<Name>, max: nat, status: Status) {
    || (task.k == 0 && EarlyReason(task.request, max, status))
    || (task.k < |task.request.parts| && Excuse(task.request.parts[task.k], task.request.overwrite, names, max, status))
    || (task.k == |task.request.parts| && task.uploaded.None? && status == BadRequest)
  }

  /** How far the temporary file of the current part is. */
  predicate PartOk(temps: map<Tmp, seq<byte>>, max: nat, pc: Pc, part: Part)
    requires part.File?
  {
    match pc
    case Receiving(tmp, i, size) =>
      && part.creates && tmp in temps && i <= |part.stream| && size <= max && size == |temps[tmp]|
      && Undisturbed(part.stream[..i]) && temps[tmp] == Data(part.stream[..i])
    case Flushing(tmp, size) =>
      && part.creates && tmp in temps && size <= max && size == |temps[tmp]|
      && Undisturbed(part.stream) && temps[tmp] == Data(part.stream)
    case Renaming(tmp, size) =>
      && part.creates && part.flushes && tmp in temps && size <= max && size == |temps[tmp]|
      && Undisturbed(part.stream) && temps[tmp] == Data(part.stream)
    case _ => true
  }

  /** Each temporary file belongs to the request that created it, which is still busy with it. */
  predicate TempOk(tasks: map<TaskId, Task>, creator: map<Tmp, TaskId>, tmp: Tmp) {
    tmp in creator && creator[tmp] in tasks && TempOf(tasks[creator[tmp]].pc) == Some(tmp)
  }

  /** What a request has landed by now. */
  function DueOf(tasks: map<TaskId, Task>, t: TaskId): seq<Landing> {
    if t in tasks && tasks[t].k <= |tasks[t].request.parts| then Due(t, tasks[t].request, tasks[t].k) else []
  }

  predicate LogOk(g: State, t: TaskId) {
    Of(g.log, t) == DueOf(g.tasks, t)
  }

  /** A landing that must not replace a file found its name free. */
  predicate FirstOfItsName(initial: map<Name, seq<byte>>, log: seq<Landing>, j: nat)
    requires j < |log|
  {
    !log[j].overwrite ==> log[j].target !in Replay(initial, log[..j])
  }

  ghost predicate Inv(initial: map<Name, seq<byte>>, max: nat, g: State) {
    && g.targets == Replay(initial, g.log)
    && (forall t {:trigger g.tasks[t]} | t in g.tasks :: TaskOk(g.targets.Keys, g.temps, g.creator, max, t, g.tasks[t]))
    && (forall tmp {:trigger TempOk(g.tasks, g.creator, tmp)} | tmp in g.temps :: TempOk(g.tasks, g.creator, tmp))
    && (forall t {:trigger LogOk(g, t)} :: LogOk(g, t))
    && (forall j {:trigger FirstOfItsName(initial, g.log, j)} | 0 <= j < |g.log| :: FirstOfItsName(initial, g.log, j))
  }

  /** One task moved on, with its own temporary file and no other. */
  predicate OwnMove(g: State, g': State, t: TaskId) {
    && t in g'.tasks && g'.tasks.Keys == g.tasks.Keys + {t}
    && (forall u | u in g.tasks && u != t :: g'.tasks[u] == g.tasks[u])
    && g'.creator.Keys >= g.creator.Keys && g'.targets.Keys >= g.targets.Keys
    && (forall tmp | tmp in g.creator :: g'.creator[tmp] == g.creator[tmp])
    && (forall tmp | tmp in g'.creator && tmp !in g.creator :: g'.creator[tmp] == t)
    && (forall tmp | tmp in g.creator && g.creator[tmp] != t ::
          (tmp in g'.temps <==> tmp in g.temps) && (tmp in g.temps ==> g'.temps[tmp] == g.temps[tmp]))
  }

  /** What the moving task has to show; the others are not concerned. */
  lemma OwnMoveKeepsTasks(max: nat, g: State, g': State, t: TaskId)
    requires forall u {:trigger g.tasks[u]} | u in g.tasks ::
             TaskOk(g.targets.Keys, g.temps, g.creator, max, u, g.tasks[u])
    requires OwnMove(g, g', t) && TaskOk(g'.targets.Keys, g'.temps, g'.creator, max, t, g'.tasks[t])
    ensures forall u {:trigger g'.tasks[u]} | u in g'.tasks ::
            TaskOk(g'.targets.Keys, g'.temps, g'.creator, max, u, g'.tasks[u])
  {
    forall u | u in g'.tasks ensures TaskOk(g'.targets.Keys, g'.temps, g'.creator, max, u, g'.tasks[u]) {
      if u != t {
        assert TaskOk(g.targets.Keys, g.temps, g.creator, max, u, g.tasks[u]);
      }
    }
  }

  lemma OwnMoveKeepsTemps(g: State, g': State, t: TaskId)
    requires forall tmp {:trigger TempOk(g.tasks, g.creator, tmp)} | tmp in g.temps :: TempOk(g.tasks, g.creator, tmp)
    requires OwnMove(g, g', t)
    requires forall tmp | tmp in g'.temps && tmp in g'.creator && g'.creator[tmp] == t ::
             TempOf(g'.tasks[t].pc) == Some(tmp)
    requires g'.temps.Keys <= g'.creator.Keys
    ensures forall tmp {:trigger TempOk(g'.tasks, g'.creator, tmp)} | tmp in g'.temps ::
            TempOk(g'.tasks, g'.creator, tmp)
  {
    forall tmp | tmp in g'.temps ensures TempOk(g'.tasks, g'.creator, tmp) {
      if g'.creator[tmp] != t {
        assert TempOk(g.tasks, g.creator, tmp);
      }
    }
  }

  /** A step that lands nothing: the mover's own state is all there is to check. */
  lemma QuietMove(initial: map<Name, seq<byte>>, max: nat, g: State, g': State, t: TaskId)
    requires Inv(initial, max, g) && OwnMove(g, g', t)
             && TaskOk(g'.targets.Keys, g'.temps, g'.creator, max, t, g'.tasks[t])
    requires g'.targets == g.targets && g'.log == g.log && LogOk(g', t)
    requires forall tmp | tmp in g'.temps && tmp in g'.creator && g'.creator[tmp] == t ::
             TempOf(g'.tasks[t].pc) == Some(tmp)
    requires g'.temps.Keys <= g'.creator.Keys
    ensures Inv(initial, max, g')
  {
    OwnMoveKeepsTasks(max, g, g', t);
    OwnMoveKeepsTemps(g, g', t);
    forall u ensures LogOk(g', u) {
      assert LogOk(g, u);
    }
    forall j | 0 <= j < |g'.log| ensures FirstOfItsName(initial, g'.log, j) {
      assert FirstOfItsName(initial, g.log, j);
    }
  }

  /** Before the step, the mover's temporary file is the only one it created. */
  lemma OnlyOwnTemp(initial: map<Name, seq<byte>>, max: nat, g: State, t: TaskId)
    requires Inv(initial, max, g) && t in g.tasks
    ensures TaskOk(g.targets.Keys, g.temps, g.creator, max, t, g.tasks[t]) && LogOk(g, t)
            && g.temps.Keys <= g.creator.Keys
    ensures forall tmp | tmp in g.temps && tmp in g.creator && g.creator[tmp] == t :: TempOf(g.tasks[t].pc) == Some(tmp)
  {
    assert LogOk(g, t);
    forall tmp | tmp in g.temps
      ensures tmp in g.creator && (g.creator[tmp] == t ==> TempOf(g.tasks[t].pc) == Some(tmp))
    {
      assert TempOk(g.tasks, g.creator, tmp);
    }
  }

  lemma MoveKeepsInv(initial: map<Name, seq<byte>>, max: nat, g: State, t: TaskId, pc: Pc)
    requires Inv(initial, max, g) && t in g.tasks && TempOf(pc) == TempOf(g.tasks[t].pc)
    requires TaskOk(g.targets.Keys, g.temps, g.creator, max, t, g.tasks[t].(pc := pc))
    ensures Inv(initial, max, Move(g, t, pc))
  {
    OnlyOwnTemp(initial, max, g, t);
    QuietMove(initial, max, g, Move(g, t, pc), t);
  }

  lemma ArriveKeepsInv(initial: map<Name, seq<byte>>, max: nat, g: State, t: TaskId, request: Request)
    requires Inv(initial, max, g) && t !in g.tasks
    ensures Inv(initial, max, Next(g, max, Arrive(t, request)))
  {
    var g' := Next(g, max, Arrive(t, request));
    assert LogOk(g, t);
    forall tmp | tmp in g'.temps ensures tmp in g'.creator && g'.creator[tmp] != t {
      assert TempOk(g.tasks, g.creator, tmp);
    }
    QuietMove(initial, max, g, g', t);
  }

  lemma LookKeepsInv(initial: map<Name, seq<byte>>, max: nat, g: State, t: TaskId)
    requires Inv(initial, max, g) && t in g.tasks && g.tasks[t].pc == Looking
    ensures Inv(initial, max, Look(g, t))
  {
    var task := g.tasks[t];
    if |task.request.parts| <= task.k {
      EndKeepsInv(initial, max, g, t);
    } else if task.request.parts[task.k].NotAFile? {
      SkipKeepsInv(initial, max, g, t);
    } else {
      PartKeepsInv(initial, max, g, t);
    }
  }

  lemma EndKeepsInv(initial: map<Name, seq<byte>>, max: nat, g: State, t: TaskId)
    requires Inv(initial, max, g) && t in g.tasks && g.tasks[t].pc == Looking
    requires |g.tasks[t].request.parts| <= g.tasks[t].k
    ensures Inv(initial, max, Look(g, t))
  {
    OnlyOwnTemp(initial, max, g, t);
    MoveKeepsInv(initial, max, g, t, Look(g, t).tasks[t].pc);
  }

  lemma PartKeepsInv(initial: map<Name, seq<byte>>, max: nat, g: State, t: TaskId)
    requires Inv(initial, max, g) && t in g.tasks && g.tasks[t].pc == Looking
    requires g.tasks[t].k < |g.tasks[t].request.parts| && !g.tasks[t].request.parts[g.tasks[t].k].NotAFile?
    ensures Inv(initial, max, Look(g, t))
  {
    OnlyOwnTemp(initial, max, g, t);
    match g.tasks[t].request.parts[g.tasks[t].k]
    case Garbled => MoveKeepsInv(initial, max, g, t, Answered(Err(BadRequest)));
    case BadName(status) => MoveKeepsInv(initial, max, g, t, Answered(Err(status)));
    case File(_, target, _, _, _, _) =>
      if !g.tasks[t].request.overwrite && target in g.targets {
        MoveKeepsInv(initial, max, g, t, Answered(Err(Conflict)));
      } else {
        MoveKeepsInv(initial, max, g, t, Creating);
      }
  }

  lemma SkipKeepsInv(initial: map<Name, seq<byte>>, max: nat, g: State, t: TaskId)
    requires Inv(initial, max, g) && t in g.tasks && g.tasks[t].pc == Looking
    requires g.tasks[t].k < |g.tasks[t].request.parts| && g.tasks[t].request.parts[g.tasks[t].k].NotAFile?
    ensures Inv(initial, max, Look(g, t))
  {
    OnlyOwnTemp(initial, max, g, t);
    var task := g.tasks[t];
    SkipIsOk(g.targets.Keys, g.temps, g.creator, max, t, task);
    var g' := g.(tasks := g.tasks[t := task.(k := task.k + 1)]);
    assert Look(g, t) == g';
    assert LogOk(g', t);
    QuietMove(initial, max, g, g', t);
  }

  lemma SkipIsOk(names: set<Name>, temps: map<Tmp, seq<byte>>, creator: map<Tmp, TaskId>, max: nat, t: TaskId,
    task: Task)
    requires TaskOk(names, temps, creator, max, t, task) && task.pc == Looking
    requires task.k < |task.request.parts| && task.request.parts[task.k].NotAFile?
    ensures TaskOk(names, temps, creator, max, t, task.(k := task.k + 1))
    ensures Due(t, task.request, task.k + 1) == Due(t, task.request, task.k)
  {
  }

  lemma CreateKeepsInv(initial: map<Name, seq<byte>>, max: nat, g: State, t: TaskId, tmp: Tmp)
    requires Inv(initial, max, g) && AtFile(g, t) && g.tasks[t].pc == Creating
    ensures Inv(initial, max, CreateTemp(g, t, tmp))
  {
    OnlyOwnTemp(initial, max, g, t);
    if FileOf(g, t).creates && tmp !in g.creator {
      QuietMove(initial, max, g, CreateTemp(g, t, tmp), t);
    } else if !FileOf(g, t).creates {
      MoveKeepsInv(initial, max, g, t, Answered(Err(Internal)));
    }
  }

  lemma {:induction false} DataSnoc(stream: seq<Event>, e: Event)
    ensures Data(stream + [e]) == Data(stream) + Payload(e)
  {
    if stream == [] {
      assert stream + [e] == [e] && [e][1..] == [];
      assert Data([e]) == Payload(e) + Data([]);
    } else {
      var rest := stream[1..];
      assert (stream + [e])[0] == stream[0] && (stream + [e])[1..] == rest + [e];
      DataSnoc(rest, e);
      Regroup(Payload(stream[0]), Data(rest), Payload(e));
    }
  }

  lemma Regroup(a: seq<byte>, b: seq<byte>, c: seq<byte>)
    ensures a + (b + c) == (a + b) + c
  {
  }

  lemma OneMoreEvent(stream: seq<Event>, i: nat)
    requires i < |stream| && Undisturbed(stream[..i]) && stream[i].Chunk? && stream[i].written
    ensures Undisturbed(stream[..i + 1]) && Data(stream[..i + 1]) == Data(stream[..i]) + stream[i].data
  {
    assert stream[..i + 1] == stream[..i] + [stream[i]];
    DataSnoc(stream[..i], stream[i]);
  }

  lemma {:induction false} DataGrows(stream: seq<Event>, i: nat)
    requires i <= |stream|
    ensures |Data(stream[..i])| <= |Data(stream)|
  {
    if i > 0 {
      DataGrows(stream[1..], i - 1);
      assert stream[..i][1..] == stream[1..][..i - 1];
    }
  }

  lemma TooMuchData(stream: seq<Event>, i: nat, max: nat)
    requires i < |stream| && stream[i].Chunk? && |Data(stream[..i])| + |stream[i].data| > max
    ensures |Data(stream)| > max
  {
    assert stream[..i + 1] == stream[..i] + [stream[i]];
    DataSnoc(stream[..i], stream[i]);
    DataGrows(stream, i + 1);
  }

  lemma ReceiveKeepsInv(initial: map<Name, seq<byte>>, max: nat, g: State, t: TaskId)
    requires Inv(initial, max, g) && AtFile(g, t) && g.tasks[t].pc.Receiving? && g.tasks[t].pc.tmp in g.temps
    ensures var pc := g.tasks[t].pc; Inv(initial, max, ReceiveOne(g, max, t, pc.tmp, pc.i, pc.size))
  {
    OnlyOwnTemp(initial, max, g, t);
    var Receiving(tmp, i, size) := g.tasks[t].pc;
    var stream := FileOf(g, t).stream;
    if |stream| <= i {
      assert stream[..i] == stream;
      MoveKeepsInv(initial, max, g, t, Flushing(tmp, size));
    } else if stream[i].Chunk? && size + |stream[i].data| <= max && stream[i].written {
      OneMoreEvent(stream, i);
      QuietMove(initial, max, g, ReceiveOne(g, max, t, tmp, i, size), t);
    } else {
      BadEventKeepsInv(initial, max, g, t, stream[i]);
    }
  }

  lemma BadEventKeepsInv(initial: map<Name, seq<byte>>, max: nat, g: State, t: TaskId, e: Event)
    requires Inv(initial, max, g) && AtFile(g, t) && g.tasks[t].pc.Receiving?
    requires var (i, size) := (g.tasks[t].pc.i, g.tasks[t].pc.size);
             i < |FileOf(g, t).stream| && e == FileOf(g, t).stream[i]
             && (e.Broken? || size + |e.data| > max || !e.written)
    ensures var status := if e.Broken? then BadRequest
                          else if g.tasks[t].pc.size + |e.data| > max then TooLarge else Internal;
            Inv(initial, max, Move(g, t, Failing(g.tasks[t].pc.tmp, status)))
  {
    OnlyOwnTemp(initial, max, g, t);
    var Receiving(tmp, i, size) := g.tasks[t].pc;
    var stream := FileOf(g, t).stream;
    if e.Chunk? && size + |e.data| > max {
      TooMuchData(stream, i, max);
    }
    assert e in stream;
    var status := if e.Broken? then BadRequest else if size + |e.data| > max then TooLarge else Internal;
    MoveKeepsInv(initial, max, g, t, Failing(tmp, status));
  }

  lemma FailKeepsInv(initial: map<Name, seq<byte>>, max: nat, g: State, t: TaskId)
    requires Inv(initial, max, g) && t in g.tasks && g.tasks[t].pc.Failing?
    ensures Inv(initial, max, NextStep(g, max, t, 0))
  {
    OnlyOwnTemp(initial, max, g, t);
    QuietMove(initial, max, g, NextStep(g, max, t, 0), t);
  }

  lemma LogSnoc(initial: map<Name, seq<byte>>, log: seq<Landing>, e: Landing, t: TaskId)
    ensures Replay(initial, log + [e]) == Replay(initial, log)[e.target := e.content]
    ensures Of(log + [e], t) == Of(log, t) + if e.task == t then [e] else []
  {
    assert (log + [e])[..|log|] == log;
  }

  /** The rename with effect. */
  predicate Lands(g: State, t: TaskId, tmp: Tmp) {
    && AtFile(g, t) && tmp in g.temps && FileOf(g, t).renames
    && (g.tasks[t].request.overwrite || FileOf(g, t).target !in g.targets)
  }

  lemma LandingKeepsTasks(initial: map<Name, seq<byte>>, max: nat, g: State, t: TaskId, tmp: Tmp, size: nat)
    requires Inv(initial, max, g) && t in g.tasks && g.tasks[t].pc == Renaming(tmp, size) && Lands(g, t, tmp)
    ensures var g' := Rename(g, t, tmp, size);
            && (forall u {:trigger g'.tasks[u]} | u in g'.tasks ::
               TaskOk(g'.targets.Keys, g'.temps, g'.creator, max, u, g'.tasks[u]))
            && (forall x {:trigger TempOk(g'.tasks, g'.creator, x)} | x in g'.temps :: TempOk(g'.tasks, g'.creator, x))
  {
    var g' := Rename(g, t, tmp, size);
    OnlyOwnTemp(initial, max, g, t);
    OwnMoveKeepsTasks(max, g, g', t);
    OwnMoveKeepsTemps(g, g', t);
  }

  lemma LandingKeepsLog(initial: map<Name, seq<byte>>, max: nat, g: State, t: TaskId, tmp: Tmp, size: nat)
    requires Inv(initial, max, g) && t in g.tasks && g.tasks[t].pc == Renaming(tmp, size) && Lands(g, t, tmp)
    ensures forall u {:trigger LogOk(Rename(g, t, tmp, size), u)} :: LogOk(Rename(g, t, tmp, size), u)
  {
    forall u ensures LogOk(Rename(g, t, tmp, size), u) {
      LandingKeepsLogOf(initial, max, g, t, tmp, size, u);
    }
  }

  lemma LandingKeepsLogOf(initial: map<Name, seq<byte>>, max: nat, g: State, t: TaskId, tmp: Tmp, size: nat, u: TaskId)
    requires Inv(initial, max, g) && t in g.tasks && g.tasks[t].pc == Renaming(tmp, size) && Lands(g, t, tmp)
    ensures LogOk(Rename(g, t, tmp, size), u)
  {
    var task := g.tasks[t];
    var e := Landing(t, task.k, FileOf(g, t).target, g.temps[tmp], task.request.overwrite);
    LandedEntry(initial, max, g, t, tmp, size);
    var g' := Rename(g, t, tmp, size);
    assert LogOk(g, u);
    LandedLog(initial, g.log, g'.log, e, g.tasks, g'.tasks, t, u);
  }

  /** What the rename logs is what its part calls for. */
  lemma LandedEntry(initial: map<Name, seq<byte>>, max: nat, g: State, t: TaskId, tmp: Tmp, size: nat)
    requires Inv(initial, max, g) && t in g.tasks && g.tasks[t].pc == Renaming(tmp, size) && Lands(g, t, tmp)
    ensures var (task, g') := (g.tasks[t], Rename(g, t, tmp, size));
            var e := Landing(t, task.k, FileOf(g, t).target, g.temps[tmp], task.request.overwrite);
            && g'.log == g.log + [e]
            && Due(t, task.request, task.k + 1) == Due(t, task.request, task.k) + [e]
            && g'.tasks.Keys == g.tasks.Keys && g'.tasks[t].request == task.request && g'.tasks[t].k == task.k + 1
            && forall u | u in g.tasks && u != t :: g'.tasks[u] == g.tasks[u]
  {
    assert TaskOk(g.targets.Keys, g.temps, g.creator, max, t, g.tasks[t]);
    OneMoreDue(g, t, Landing(t, g.tasks[t].k, FileOf(g, t).target, g.temps[tmp], g.tasks[t].request.overwrite));
  }

  lemma LandedLog(initial: map<Name, seq<byte>>, log: seq<Landing>, log': seq<Landing>, e: Landing,
                  tasks: map<TaskId, Task>, tasks': map<TaskId, Task>, t: TaskId, u: TaskId)
    requires log' == log + [e] && e.task == t
    requires t in tasks && tasks'.Keys == tasks.Keys && forall v | v in tasks && v != t :: tasks'[v] == tasks[v]
    requires tasks[t].k < |tasks[t].request.parts|
    requires tasks'[t].request == tasks[t].request && tasks'[t].k == tasks[t].k + 1
    requires Due(t, tasks[t].request, tasks[t].k + 1) == Due(t, tasks[t].request, tasks[t].k) + [e]
    requires Of(log, u) == DueOf(tasks, u)
    ensures Of(log', u) == DueOf(tasks', u)
  {
    LogSnoc(initial, log, e, u);
  }

  lemma OneMoreDue(g: State, t: TaskId, e: Landing)
    requires AtFile(g, t) && e == Landing(t, g.tasks[t].k, FileOf(g, t).target, Data(FileOf(g, t).stream),
             g.tasks[t].request.overwrite)
    ensures var task := g.tasks[t]; Due(t, task.request, task.k + 1) == Due(t, task.request, task.k) + [e]
  {
  }

  lemma LandingKeepsNames(initial: map<Name, seq<byte>>, max: nat, g: State, t: TaskId, tmp: Tmp, size: nat)
    requires Inv(initial, max, g) && Lands(g, t, tmp)
    ensures var g' := Rename(g, t, tmp, size);
            && g'.targets == Replay(initial, g'.log)
            && forall j {:trigger FirstOfItsName(initial, g'.log, j)} | 0 <= j < |g'.log| ::
               FirstOfItsName(initial, g'.log, j)
  {
    var g' := Rename(g, t, tmp, size);
    LogSnoc(initial, g.log, g'.log[|g.log|], t);
    forall j | 0 <= j < |g'.log| ensures FirstOfItsName(initial, g'.log, j) {
      if j < |g.log| {
        assert FirstOfItsName(initial, g.log, j);
        assert g'.log[..j] == g.log[..j];
      } else {
        assert g'.log[..j] == g.log;
      }
    }
  }

  lemma RenameKeepsInv(initial: map<Name, seq<byte>>, max: nat, g: State, t: TaskId)
    requires Inv(initial, max, g) && AtFile(g, t) && g.tasks[t].pc.Renaming? && g.tasks[t].pc.tmp in g.temps
    ensures Inv(initial, max, Rename(g, t, g.tasks[t].pc.tmp, g.tasks[t].pc.size))
  {
    var Renaming(tmp, size) := g.tasks[t].pc;
    if Lands(g, t, tmp) {
      LandingKeepsTasks(initial, max, g, t, tmp, size);
      LandingKeepsLog(initial, max, g, t, tmp, size);
      LandingKeepsNames(initial, max, g, t, tmp, size);
    } else {
      OnlyOwnTemp(initial, max, g, t);
      MoveKeepsInv(initial, max, g, t, Rename(g, t, tmp, size).tasks[t].pc);
    }
  }

  lemma StepKeepsInv(initial: map<Name, seq<byte>>, max: nat, g: State, t: TaskId, tmp: Tmp)
    requires Inv(initial, max, g) && t in g.tasks
    ensures Inv(initial, max, NextStep(g, max, t, tmp))
  {
    OnlyOwnTemp(initial, max, g, t);
    match g.tasks[t].pc
    case Looking => LookKeepsInv(initial, max, g, t);
    case Creating => CreateKeepsInv(initial, max, g, t, tmp);
    case Receiving(_, _, _) => ReceiveKeepsInv(initial, max, g, t);
    case Flushing(own, size) =>
      MoveKeepsInv(initial, max, g, t, if FileOf(g, t).flushes then Renaming(own, size) else Failing(own, Internal));
    case Renaming(_, _) => RenameKeepsInv(initial, max, g, t);
    case Failing(_, _) => FailKeepsInv(initial, max, g, t);
    case Answered(_) =>
  }

  lemma {:induction false} InvHolds(initial: map<Name, seq<byte>>, max: nat, acts: seq<Act>)
    ensures Inv(initial, max, Exec(Init(initial), max, acts))
  {
    if acts != [] {
      var g := Exec(Init(initial), max, acts[..|acts| - 1]);
      InvHolds(initial, max, acts[..|acts| - 1]);
      match acts[|acts| - 1]
      case Arrive(t, request) =>
        if t !in g.tasks {
          ArriveKeepsInv(initial, max, g, t, request);
        }
      case Step(t, tmp) =>
        if t in g.tasks {
          StepKeepsInv(initial, max, g, t, tmp);
        }
    }
  }

  // ----- What every run guarantees -----

  function After(initial: map<Name, seq<byte>>, max: nat, acts: seq<Act>): State {
    Exec(Init(initial), max, acts)
  }

  lemma {:induction false} OfHas(log: seq<Landing>, e: Landing)
    ensures e in log ==> e in Of(log, e.task)
  {
    if log != [] && e in log && e != log[|log| - 1] {
      assert e in log[..|log| - 1];
      OfHas(log[..|log| - 1], e);
    }
  }

  lemma {:induction false} DueHas(t: TaskId, request: Request, k: nat, e: Landing)
    requires k <= |request.parts| && e in Due(t, request, k)
    ensures e.part < k && request.parts[e.part].File?
            && e == Landing(t, e.part, request.parts[e.part].target, Data(request.parts[e.part].stream),
               request.overwrite)
  {
    if k > 0 && e in Due(t, request, k - 1) {
      DueHas(t, request, k - 1, e);
    }
  }

  /** The landing put one part of a request under its name: all of the part's bytes, in order, within the limit. */
  predicate WholePart(tasks: map<TaskId, Task>, max: nat, e: Landing) {
    && e.task in tasks && e.part < |tasks[e.task].request.parts|
    && var part := tasks[e.task].request.parts[e.part];
       && part.File? && Undisturbed(part.stream) && e.target == part.target && e.content == Data(part.stream)
       && |e.content| <= max && e.overwrite == tasks[e.task].request.overwrite
  }

  lemma LandingsAreWhole(initial: map<Name, seq<byte>>, max: nat, acts: seq<Act>, e: Landing)
    requires e in After(initial, max, acts).log
    ensures WholePart(After(initial, max, acts).tasks, max, e)
  {
    var g := After(initial, max, acts);
    InvHolds(initial, max, acts);
    OfHas(g.log, e);
    assert LogOk(g, e.task);
    assert TaskOk(g.targets.Keys, g.temps, g.creator, max, e.task, g.tasks[e.task]);
    DueHas(e.task, g.tasks[e.task].request, g.tasks[e.task].k, e);
    assert Passes(g.tasks[e.task].request.parts[e.part], max);
  }

  lemma {:induction false} ReplayIsLatest(initial: map<Name, seq<byte>>, log: seq<Landing>, name: Name)
    ensures (forall e | e in log :: e.target != name) ==>
              (name in Replay(initial, log) <==> name in initial)
              && (name in initial ==> Replay(initial, log)[name] == initial[name])
    ensures (exists e :: e in log && e.target == name) ==>
              && name in Replay(initial, log)
              && exists e :: e in log && e.target == name && Replay(initial, log)[name] == e.content
  {
    if log != [] {
      var init, last := log[..|log| - 1], log[|log| - 1];
      ReplayIsLatest(initial, init, name);
      assert log == init + [last];
      if last.target == name {
        assert last in log && Replay(initial, log)[name] == last.content;
      }
    }
  }

  /**
  At any moment of any run a target either is what it was at the start or holds all the bytes of one
  uploaded part, within the limit.
  */
  lemma TargetsAreWhole(initial: map<Name, seq<byte>>, max: nat, acts: seq<Act>, name: Name)
    ensures var g := After(initial, max, acts);
            || (name !in initial && name !in g.targets)
            || (name in initial && name in g.targets && g.targets[name] == initial[name])
            || (name in g.targets && exists e :: e in g.log && WholePart(g.tasks, max, e)
                                           && e.target == name && g.targets[name] == e.content)
  {
    var g := After(initial, max, acts);
    InvHolds(initial, max, acts);
    ReplayIsLatest(initial, g.log, name);
    if e :| e in g.log && e.target == name {
      var e' :| e' in g.log && e'.target == name && g.targets[name] == e'.content;
      LandingsAreWhole(initial, max, acts, e');
    }
  }

  /**
  An upload that may not overwrite lands only on a name that did not exist: not at the start, and no upload landed
  there before. So of several such uploads of one name at most one succeeds.
  */
  lemma NeverReplaces(initial: map<Name, seq<byte>>, max: nat, acts: seq<Act>, j: nat)
    requires j < |After(initial, max, acts).log| && !After(initial, max, acts).log[j].overwrite
    ensures var log := After(initial, max, acts).log;
            log[j].target !in initial && forall i | 0 <= i < j :: log[i].target != log[j].target
  {
    InvHolds(initial, max, acts);
    var log := After(initial, max, acts).log;
    assert FirstOfItsName(initial, log, j);
    ReplayKeepsNames(initial, log[..j], log[j].target);
    assert forall i | 0 <= i < j :: log[i] in log[..j];
  }

  lemma {:induction false} ReplayKeepsNames(initial: map<Name, seq<byte>>, log: seq<Landing>, name: Name)
    requires name !in Replay(initial, log)
    ensures name !in initial && forall e | e in log :: e.target != name
  {
    if log != [] {
      ReplayKeepsNames(initial, log[..|log| - 1], name);
      assert log == log[..|log| - 1] + [log[|log| - 1]];
    }
  }

  /** Every temporary file belongs to a request that is still at work: once all are answered, none is left. */
  lemma NoLeftovers(initial: map<Name, seq<byte>>, max: nat, acts: seq<Act>, tmp: Tmp)
    requires tmp in After(initial, max, acts).temps
    ensures var g := After(initial, max, acts);
            exists t | t in g.tasks :: TempOf(g.tasks[t].pc) == Some(tmp) && !g.tasks[t].pc.Answered?
  {
    InvHolds(initial, max, acts);
    var g := After(initial, max, acts);
    assert TempOk(g.tasks, g.creator, tmp);
    assert TempOf(g.tasks[g.creator[tmp]].pc) == Some(tmp);
  }

  /**
  A request answered with success landed every file part it had, in order and nothing else, and reports the last
  file's name and exact size; one answered with an error landed the parts before the one that explains the error.
  */
  lemma AnswersTellLandings(initial: map<Name, seq<byte>>, max: nat, acts: seq<Act>, t: TaskId)
    requires var g := After(initial, max, acts); t in g.tasks && g.tasks[t].pc.Answered?
    ensures var g := After(initial, max, acts);
            var (request, k) := (g.tasks[t].request, g.tasks[t].k);
            && k <= |request.parts| && Of(g.log, t) == Due(t, request, k) && Passed(request, k, max)
            && match g.tasks[t].pc.answer
               case Ok(response) => k == |request.parts| && Earned(request, k) == Some(response)
               case Err(status) =>
                 && Excused(g.tasks[t], g.targets.Keys, max, status)
                 && g.tasks[t].uploaded == Earned(request, k)
  {
    InvHolds(initial, max, acts);
    var g := After(initial, max, acts);
    assert LogOk(g, t) && TaskOk(g.targets.Keys, g.temps, g.creator, max, t, g.tasks[t]);
  }

  // ----- A request that runs undisturbed -----

  lemma {:induction false} ExecAppend(g: State, max: nat, acts: seq<Act>, more: seq<Act>)
    ensures Exec(g, max, acts + more) == Exec(Exec(g, max, acts), max, more)
  {
    if more == [] {
      assert acts + more == acts;
    } else {
      var init, last := more[..|more| - 1], more[|more| - 1];
      assert acts + more == (acts + init) + [last];
      assert (acts + more)[..|acts + more| - 1] == acts + init;
      ExecAppend(g, max, acts, init);
    }
  }

  lemma ExecFirst(g: State, max: nat, act: Act, more: seq<Act>)
    ensures Exec(g, max, [act] + more) == Exec(Next(g, max, act), max, more)
  {
    ExecAppend(g, max, [act], more);
    assert [act][..0] == [];
    assert Exec(g, max, []) == g;
  }

  predicate Steps(acts: seq<Act>, t: TaskId) {
    forall act | act in acts :: act.Step? && act.t == t
  }

  /** The streaming loop takes the temporary file to what `Receive` says. */
  lemma {:induction false} ReceivesAlone(g: State, max: nat, t: TaskId, tmp: Tmp, i: nat)
    returns (acts: seq<Act>, got: seq<byte>)
    requires AtFile(g, t) && tmp in g.temps && g.tasks[t].pc == Receiving(tmp, i, |g.temps[tmp]|)
    requires i <= |FileOf(g, t).stream|
    ensures Steps(acts, t)
    ensures Exec(g, max, acts) ==
            Move(g, t, match Receive(FileOf(g, t).stream[i..], max, g.temps[tmp])
                       case Ok(content) => Flushing(tmp, |content|)
                       case Err(e) => Failing(tmp, e)).(temps := g.temps[tmp := got])
    ensures Receive(FileOf(g, t).stream[i..], max, g.temps[tmp]).Ok? ==>
              got == Receive(FileOf(g, t).stream[i..], max, g.temps[tmp]).value
    decreases |FileOf(g, t).stream| - i
  {
    var stream := FileOf(g, t).stream;
    var g' := Next(g, max, Step(t, tmp));
    ExecFirst(g, max, Step(t, tmp), []);
    if i < |stream| && stream[i].Chunk? && |g.temps[tmp]| + |stream[i].data| <= max && stream[i].written {
      var more;
      more, got := ReceivesAlone(g', max, t, tmp, i + 1);
      acts := [Step(t, tmp)] + more;
      ExecFirst(g, max, Step(t, tmp), more);
      assert g'.temps[tmp := got] == g.temps[tmp := got];
    } else {
      acts, got := [Step(t, tmp)], g.temps[tmp];
      assert g.temps[tmp := got] == g.temps;
      assert [Step(t, tmp)] + [] == acts;
    }
  }

  /** One task worked from `g` to `g'` and left no temporary file behind. */
  predicate Worked(g: State, g': State, t: TaskId) {
    && t in g.tasks && t in g'.tasks && g'.tasks[t].request == g.tasks[t].request
    && g'.temps == g.temps && g.creator.Keys <= g'.creator.Keys
  }

  /** From the flushed temporary file to the landing, or to the error. */
  lemma FinishesAlone(g: State, max: nat, t: TaskId, tmp: Tmp) returns (acts: seq<Act>)
    requires AtFile(g, t) && tmp in g.temps && g.tasks[t].pc == Flushing(tmp, |g.temps[tmp]|)
    requires g.tasks[t].request.overwrite || FileOf(g, t).target !in g.targets
    ensures Steps(acts, t)
    ensures var (g', part, task) := (Exec(g, max, acts), FileOf(g, t), g.tasks[t]);
            && g'.temps == g.temps - {tmp} && g'.creator == g.creator && t in g'.tasks
            && if part.flushes && part.renames
               then g'.targets == g.targets[part.target := g.temps[tmp]]
                    && g'.tasks[t] == Task(task.request, task.k + 1, Some(Response(part.filename, |g.temps[tmp]|)),
                       Looking)
               else g'.targets == g.targets && g'.tasks[t] == task.(pc := Answered(Err(Internal)))
  {
    var (step, part) := (Step(t, tmp), FileOf(g, t));
    ExecFirst(g, max, step, [step]);
    ExecFirst(Next(g, max, step), max, step, []);
    assert [step] + [] == [step];
    acts := [step] + [step];
    if part.flushes && !part.renames {
      acts := [step] + ([step] + [step]);
      ExecFirst(g, max, step, [step] + [step]);
      ExecFirst(Next(g, max, step), max, step, [step]);
      ExecFirst(Next(Next(g, max, step), max, step), max, step, []);
    }
  }

  /** From the empty temporary file on. */
  lemma StreamAlone(g: State, max: nat, t: TaskId, tmp: Tmp) returns (acts: seq<Act>)
    requires AtFile(g, t) && tmp in g.temps && g.temps[tmp] == [] && g.tasks[t].pc == Receiving(tmp, 0, 0)
    requires g.tasks[t].request.overwrite || FileOf(g, t).target !in g.targets
    ensures Steps(acts, t)
    ensures var (g', part, task) := (Exec(g, max, acts), FileOf(g, t), g.tasks[t]);
            && g'.temps == g.temps - {tmp} && g'.creator == g.creator && t in g'.tasks
            && match Receive(part.stream, max, [])
               case Ok(content) =>
                 if part.flushes && part.renames
                 then g'.targets == g.targets[part.target := content]
                      && g'.tasks[t] == Task(task.request, task.k + 1, Some(Response(part.filename, |content|)),
                         Looking)
                 else g'.targets == g.targets && g'.tasks[t] == task.(pc := Answered(Err(Internal)))
               case Err(e) => g'.targets == g.targets && g'.tasks[t] == task.(pc := Answered(Err(e)))
  {
    var part := FileOf(g, t);
    var receive, got := ReceivesAlone(g, max, t, tmp, 0);
    assert part.stream[0..] == part.stream;
    var received := Exec(g, max, receive);
    assert received.temps - {tmp} == g.temps - {tmp};
    var rest := [Step(t, tmp)];
    if received.tasks[t].pc.Flushing? {
      rest := FinishesAlone(received, max, t, tmp);
    } else {
      ExecFirst(received, max, Step(t, tmp), []);
      assert [Step(t, tmp)] + [] == rest;
    }
    ExecAppend(g, max, receive, rest);
    acts := receive + rest;
  }

  lemma PartAlone(g: State, max: nat, t: TaskId, tmp: Tmp) returns (acts: seq<Act>)
    requires AtFile(g, t) && g.tasks[t].pc == Looking && tmp !in g.creator && tmp !in g.temps
    ensures Steps(acts, t) && Worked(g, Exec(g, max, acts), t)
    ensures var (g', part, task) := (Exec(g, max, acts), FileOf(g, t), g.tasks[t]);
            match Land(g.targets, task.request.overwrite, part, max)
            case Ok(content) =>
              && g'.targets == g.targets[part.target := content]
              && g'.tasks[t] == Task(task.request, task.k + 1, Some(Response(part.filename, |content|)), Looking)
            case Err(e) => g'.targets == g.targets && g'.tasks[t].pc == Answered(Err(e))
  {
    var (step, part) := (Step(t, tmp), FileOf(g, t));
    var looked := Next(g, max, step);
    ExecFirst(g, max, step, []);
    acts := [step] + [];
    if looked.tasks[t].pc == Creating {
      var created := Next(looked, max, step);
      ExecFirst(g, max, step, [step]);
      ExecFirst(looked, max, step, []);
      assert [step] + [] == [step];
      acts := [step] + [step];
      if part.creates {
        var stream := StreamAlone(created, max, t, tmp);
        assert created.temps - {tmp} == g.temps;
        ExecAppend(g, max, acts, stream);
        acts := acts + stream;
      }
    }
  }

  lemma {:induction false} NewTmp(used: set<Tmp>) returns (tmp: Tmp)
    ensures tmp !in used && forall other | other in used :: other < tmp
  {
    if used == {} {
      tmp := 0;
    } else {
      var some :| some in used;
      var rest := NewTmp(used - {some});
      assert forall other | other in used :: other == some || other in used - {some};
      tmp := if rest > some then rest else some + 1;
    }
  }

  /** What the handler would do with the parts from the current one on. */
  function ToServe(g: State, max: nat, t: TaskId): Outcome
    requires t in g.tasks && g.tasks[t].k <= |g.tasks[t].request.parts|
  {
    var task := g.tasks[t];
    ServeParts(g.targets, task.request.overwrite, task.request.parts[task.k..], max, task.uploaded)
  }

  lemma NextPartAlone(g: State, max: nat, t: TaskId) returns (acts: seq<Act>)
    requires t in g.tasks && g.tasks[t].pc == Looking && g.tasks[t].k < |g.tasks[t].request.parts|
    ensures Steps(acts, t) && Worked(g, Exec(g, max, acts), t)
    ensures var (g', task) := (Exec(g, max, acts), g.tasks[t]);
            if g'.tasks[t].pc == Looking then g'.tasks[t].k == task.k + 1 && ToServe(g', max, t) == ToServe(g, max, t)
            else g'.tasks[t].pc.Answered? && Outcome(g'.targets, g'.tasks[t].pc.answer) == ToServe(g, max, t)
  {
    var (parts, k) := (g.tasks[t].request.parts, g.tasks[t].k);
    assert parts[k..][0] == parts[k] && parts[k..][1..] == parts[k + 1..];
    var tmp := NewTmp(g.creator.Keys + g.temps.Keys);
    assert tmp !in g.creator.Keys && tmp !in g.temps.Keys;
    if parts[k].File? {
      acts := PartAlone(g, max, t, tmp);
    } else {
      ExecFirst(g, max, Step(t, tmp), []);
      acts := [Step(t, tmp)] + [];
    }
  }

  lemma {:induction false} PartsAlone(g: State, max: nat, t: TaskId) returns (acts: seq<Act>)
    requires t in g.tasks && g.tasks[t].pc == Looking && g.tasks[t].k <= |g.tasks[t].request.parts|
    ensures Steps(acts, t) && Worked(g, Exec(g, max, acts), t)
    ensures var g' := Exec(g, max, acts);
            g'.tasks[t].pc.Answered? && Outcome(g'.targets, g'.tasks[t].pc.answer) == ToServe(g, max, t)
    decreases |g.tasks[t].request.parts| - g.tasks[t].k
  {
    if g.tasks[t].k < |g.tasks[t].request.parts| {
      acts := NextPartAlone(g, max, t);
      var g' := Exec(g, max, acts);
      if g'.tasks[t].pc == Looking {
        var more := PartsAlone(g', max, t);
        ExecAppend(g, max, acts, more);
        acts := acts + more;
      }
    } else {
      ExecFirst(g, max, Step(t, 0), []);
      acts := [Step(t, 0)] + [];
    }
  }

  /** Run without interruption, a request leaves and answers what `Serve` says, as the handler's method does. */
  lemma RequestAlone(g: State, max: nat, t: TaskId, request: Request) returns (acts: seq<Act>)
    requires t !in g.tasks
    ensures Steps(acts, t)
    ensures var g' := Exec(g, max, [Arrive(t, request)] + acts);
            && g'.temps == g.temps && t in g'.tasks && g'.tasks[t].pc.Answered?
            && Outcome(g'.targets, g'.tasks[t].pc.answer) == Serve(g.targets, request, max)
  {
    var arrived := Next(g, max, Arrive(t, request));
    acts := [];
    if Early(request, max).None? {
      acts := PartsAlone(arrived, max, t);
      assert request.parts[0..] == request.parts;
    }
    ExecFirst(g, max, Arrive(t, request), acts);
  }
}
