/**
One terminal session of `src/session.rs`: the values that its lock-protected sections read and
write, and the class whose methods are those sections.
*/
module Session {
  import opened Wrappers
  import opened Broadcast
  import opened Time
  import opened Utf8

  /** A UUID: it names a session, or a client for the length of its connection. */
  type Id = nat

  type Burst = seq<byte>

  datatype Mode = Isolated | SharedReadOnly | SharedReadWrite

  datatype Client = Client(readonly: bool)

  /** The handle of a spawned reader task. */
  type Handle = nat

  datatype Core = Core(
    mode: Mode,
    clients: map<Id, Client>,
    lastActivity: Instant,
    output: Channel<Burst>,
    cancelled: bool,
    reader: Option<Handle>)

  function NewCore(mode: Mode, now: Instant): Core {
    Core(mode, map[], now, Channel([], true), false, None)
  }

  function ClientAdded(s: Core, id: Id, client: Client, now: Instant): Option<Core> {
    if s.mode == Isolated && s.clients != map[] then None
    else Some(s.(clients := s.clients[id := client], lastActivity := now))
  }

  function ClientRemoved(s: Core, id: Id, now: Instant): Core {
    if id in s.clients then s.(clients := s.clients - {id}, lastActivity := now) else s
  }

  predicate MayWrite(s: Core, id: Id) {
    && s.mode != SharedReadOnly
    && id in s.clients
    && (s.mode == SharedReadWrite ==> !s.clients[id].readonly)
  }

  function PtyExited(s: Core): Core {
    s.(output := Close(s.output))
  }

  /** `handle` names the task that is spawned if the slot is empty. */
  function ReaderStarted(s: Core, handle: Handle): Core {
    if s.reader.None? then s.(reader := Some(handle)) else s
  }

  function ReaderAborted(s: Core): Core {
    s.(reader := None)
  }

  function Cancelled(s: Core): Core {
    s.(cancelled := true)
  }

  function Terminated(s: Core): Core {
    ReaderAborted(PtyExited(Cancelled(s)))
  }

  /** What a torn-down session looks like. */
  predicate ShutDown(s: Core) {
    s.cancelled && !s.output.open
  }

  class Session {
    const id: Id
    const mode: Mode
    var clients: map<Id, Client>
    var lastActivity: Instant
    var output: Channel<Burst>
    var cancelled: bool
    var reader: Option<Handle>
    /** The readers whose abort was requested. */
    var aborted: set<Handle>

    function State(): Core
      reads this
    {
      Core(mode, clients, lastActivity, output, cancelled, reader)
    }

    constructor (id: Id, mode: Mode, now: Instant)
      ensures this.id == id && State() == NewCore(mode, now) && aborted == {}
      ensures this.mode == mode && clients == map[] && lastActivity == now
      ensures output == Channel([], true) && !cancelled && reader == None
    {
      this.id := id;
      this.mode := mode;
      clients := map[];
      lastActivity := now;
      output := Channel([], true);
      cancelled := false;
      reader := None;
      aborted := {};
    }

    method AddClient(clientId: Id, client: Client, now: Instant) returns (ok: bool)
      modifies this`clients, this`lastActivity
      ensures ok == ClientAdded(old(State()), clientId, client, now).Some?
      ensures State() == if ok then ClientAdded(old(State()), clientId, client, now).value else old(State())
      ensures ok <==> !(mode == Isolated && old(clients) != map[])
      ensures clients == if ok then old(clients)[clientId := client] else old(clients)
      ensures lastActivity == if ok then now else old(lastActivity)
    {
      if mode == Isolated && clients != map[] {
        return false;
      }
      clients := clients[clientId := client];
      lastActivity := now;
      return true;
    }

    method RemoveClient(clientId: Id, now: Instant) returns (removed: bool)
      modifies this`clients, this`lastActivity
      ensures removed == (clientId in old(clients))
      ensures State() == ClientRemoved(old(State()), clientId, now)
      ensures clients == old(clients) - {clientId} && lastActivity == if removed then now else old(lastActivity)
    {
      removed := clientId in clients;
      clients := clients - {clientId};
      if removed {
        lastActivity := now;
      }
    }

    /** Who may write: in an isolated session its client, in a shared one those not marked,
      and never a former client. */
    method CanWrite(clientId: Id) returns (can: bool)
      ensures can ==> clientId in clients
      ensures clientId in clients ==>
                match mode
                case Isolated => can
                case SharedReadOnly => !can
                case SharedReadWrite => can == !clients[clientId].readonly
      ensures can == MayWrite(State(), clientId)
    {
      match mode
      case Isolated => can := clientId in clients;
      case SharedReadOnly => can := false;
      case SharedReadWrite =>
        if clientId in clients {
          can := !clients[clientId].readonly;
        } else {
          can := false;
        }
    }

    method Touch(now: Instant)
      modifies this`lastActivity
      ensures State() == old(State()).(lastActivity := now)
    {
      lastActivity := now;
    }

    /**
    The position a new subscriber starts from: from there it receives what is broadcast from now on, whatever that will
    be, and nothing that was broadcast before. There is none once the sender is gone.
    */
    method SubscribeOutput() returns (from: Option<nat>)
      ensures from.Some? <==> output.open
      ensures from.Some? ==>
                && from.value <= |output.log|
                && (forall more: seq<Burst>, open: bool ::
                      Drained(Channel(output.log + more, open), from.value) == Newest(more))
    {
      if output.open {
        from := Some(|output.log|);
        forall more: seq<Burst>, open: bool
          ensures Drained(Channel(output.log + more, open), from.value) == Newest(more)
        {
          SubscriberGetsTheRest(output, more, open);
        }
      } else {
        from := None;
      }
    }

    method BroadcastOutput(data: Burst)
      modifies this`output
      ensures output == Send(old(output), data)
      ensures output.open == old(output).open
      ensures output.log == old(output).log + if output.open then [data] else []
    {
      if output.open {
        output := output.(log := output.log + [data]);
      }
    }

    method MarkPtyExited()
      modifies this`output
      ensures State() == PtyExited(old(State()))
      ensures output == old(output).(open := false)
    {
      output := output.(open := false);
    }

    method StartReaderOnce(spawn: Handle) returns (spawned: bool)
      modifies this`reader
      ensures State() == ReaderStarted(old(State()), spawn)
      ensures spawned == old(reader).None? && reader == if spawned then Some(spawn) else old(reader)
    {
      spawned := reader.None?;
      if reader.None? {
        reader := Some(spawn);
      }
    }

    method AbortReader()
      modifies this`reader, this`aborted
      ensures State() == ReaderAborted(old(State())) && reader == None
      ensures aborted == old(aborted) + if old(reader).Some? then {old(reader).value} else {}
    {
      if reader.Some? {
        aborted := aborted + {reader.value};
        reader := None;
      }
    }

    method Shutdown()
      modifies this
      ensures State() == Terminated(old(State())) && ShutDown(State())
      ensures cancelled && output == old(output).(open := false) && reader == None
      ensures clients == old(clients) && lastActivity == old(lastActivity)
      ensures aborted == old(aborted) + if old(reader).Some? then {old(reader).value} else {}
    {
      cancelled := true;
      MarkPtyExited();
      AbortReader();
    }

    method ClearClients() returns (n: nat)
      modifies this`clients
      ensures n == |old(clients)| && State() == old(State()).(clients := map[])
    {
      n := |clients|;
      clients := map[];
    }
  }
}
