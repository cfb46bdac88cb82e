/** The lifecycle binding to one QPM: the installed service record, the clients
    connected from it, and every section of code that runs under the binding's
    lock. Each section is a method of `Binding` and a function on its state. */
module LifecycleBinding {
  import opened Prelude

  type Name = nat
  type RuntimeId = nat
  type Handle = nat

  /** A service record: the QPM's identity and the API bindings it exposes. */
  datatype Record = Record(runtime: RuntimeId, handle: Handle, apis: seq<Name>)

  /** A record as an event carries it, before its identity is checked. */
  datatype RecordEvent = RecordEvent(
    serviceMatches: bool, runtime: Option<RuntimeId>, handle: Option<Handle>, apis: seq<Name>,
    directoryRuntime: Option<RuntimeId>)

  /** A connection: the binding it serves, the identity it was made from, and
      the position in the run at which it was made. */
  datatype Client = Client(name: Name, runtime: RuntimeId, handle: Handle, made: nat)

  datatype Error = RuntimeChanged | Unavailable | BadRecord | NoSuchApi

  datatype Shared = Shared(
    started: bool,
    directory: Option<nat>,
    directoryRuntime: Option<RuntimeId>,
    record: Option<Record>,
    runtime: Option<RuntimeId>,
    handle: Option<Handle>,
    clients: map<Name, Client>)

  datatype Looked = Hit(client: Client) | Miss | Refused(error: Error)

  // ------------------------------------------------ the locked sections, on values

  function Require(s: Shared, expected: Option<RuntimeId>): Option<Error> {
    if expected.Some? && s.runtime.Some? && s.runtime != expected then Some(RuntimeChanged)
    else if s.record.None? then Some(Unavailable)
    else None
  }

  function Look(s: Shared, name: Name, expected: Option<RuntimeId>): Looked {
    var refused := Require(s, expected);
    if refused.Some? then Refused(refused.value)
    else if name in s.clients then Hit(s.clients[name])
    else Miss
  }

  /** The last section of `client`: check again, then cache unless the service
      changed meanwhile. */
  function Publish(s: Shared, name: Name, expected: Option<RuntimeId>,
                   runtime: Option<RuntimeId>, handle: Option<Handle>, client: Client): (Shared, Looked)
  {
    var refused := Require(s, expected);
    if refused.Some? then (s, Refused(refused.value))
    else if s.runtime != runtime || s.handle != handle then (s, Refused(Unavailable))
    else if name in s.clients then (s, Hit(s.clients[name]))
    else (s.(clients := s.clients[name := client]), Hit(client))
  }

  function Install(s: Shared, e: RecordEvent): (Shared, Option<Error>) {
    if !e.serviceMatches || e.runtime.None? || e.handle.None? then (s, Some(BadRecord))
    else
      (s.(directoryRuntime := if e.directoryRuntime.Some? then e.directoryRuntime else s.directoryRuntime,
          runtime := e.runtime,
          handle := e.handle,
          record := Some(Record(e.runtime.value, e.handle.value, e.apis)),
          clients := map[]),
       None)
  }

  function Disconnect(s: Shared, runtime: Option<RuntimeId>, handle: Option<Handle>): Shared {
    if runtime != s.runtime || handle != s.handle then s else s.(record := None, clients := map[])
  }

  /** A transport peer is gone: only the QPM's own runtime matters. */
  function PeerLost(s: Shared, runtime: Option<RuntimeId>): Shared {
    if runtime.Some? && runtime == s.runtime then s.(clients := map[]) else s
  }

  function DirectoryLost(s: Shared, runtime: Option<RuntimeId>): Shared {
    if s.directoryRuntime.Some? && runtime.Some? && s.directoryRuntime != runtime then s
    else s.(directory := None, record := None, clients := map[])
  }

  function BindDirectory(s: Shared, directory: nat, runtime: Option<RuntimeId>): Shared {
    s.(directory := Some(directory), directoryRuntime := runtime)
  }

  function Begin(s: Shared): Shared {
    s.(started := true)
  }

  function Close(s: Shared): Shared {
    if !s.started then s else s.(started := false, record := None, clients := map[])
  }

  const EMPTY := Shared(false, None, None, None, None, None, map[])

  /** What every section keeps: no record means no clients, and every cached
      client was made from the installed identity. */
  ghost predicate Consistent(s: Shared) {
    && (s.record.None? ==> s.clients == map[])
    && (s.record.Some? ==> s.runtime == Some(s.record.value.runtime) && s.handle == Some(s.record.value.handle))
    && (forall n | n in s.clients ::
          s.clients[n].name == n && s.runtime == Some(s.clients[n].runtime) && s.handle == Some(s.clients[n].handle))
  }

  class Binding {
    var started: bool
    var directory: Option<nat>
    var directoryRuntime: Option<RuntimeId>
    var record: Option<Record>
    var runtime: Option<RuntimeId>
    var handle: Option<Handle>
    var clients: map<Name, Client>

    function View(): Shared
      reads this
    {
      Shared(started, directory, directoryRuntime, record, runtime, handle, clients)
    }

    constructor ()
      ensures View() == EMPTY && Consistent(View())
    {
      started := false;
      directory, directoryRuntime, record, runtime, handle := None, None, None, None, None;
      clients := map[];
    }

    /** The locked section of `start`; starting twice changes nothing. */
    method StartLocked()
      modifies this
      ensures View() == Begin(old(View()))
      ensures View() == old(View()).(started := true)
      ensures old(Consistent(View())) ==> Consistent(View())
    {
      if started {
        return;
      }
      started := true;
    }

    /** Lets a caller through exactly when a record is installed and, if the caller
        named a runtime, it is that record's. */
    method RequireLocked(expected: Option<RuntimeId>) returns (r: Option<Error>)
      ensures r == Require(View(), expected)
      ensures Consistent(View()) ==>
                (r.None? <==> record.Some? && (expected.Some? ==> record.value.runtime == expected.value))
      ensures r == Some(RuntimeChanged) <==> expected.Some? && runtime.Some? && runtime != expected
      ensures r == Some(Unavailable) <==> r != Some(RuntimeChanged) && record.None?
      ensures r.None? || r == Some(RuntimeChanged) || r == Some(Unavailable)
    {
      if expected.Some? && runtime.Some? && runtime != expected {
        return Some(RuntimeChanged);
      }
      if record.None? {
        return Some(Unavailable);
      }
      return None;
    }

    /** The cached client, or that there is none, of an available service. */
    method LookLocked(name: Name, expected: Option<RuntimeId>) returns (r: Looked)
      ensures r == Look(View(), name, expected)
      ensures Consistent(View()) && r.Hit? ==> (expected.Some? ==> r.client.runtime == expected.value)
      ensures r.Refused? <==> record.None? || (expected.Some? && runtime.Some? && runtime != expected)
      ensures r.Refused? ==> r.error == if expected.Some? && runtime.Some? && runtime != expected
                then RuntimeChanged else Unavailable
      ensures r.Hit? <==> !r.Refused? && name in clients
      ensures r.Hit? ==> r.client == clients[name]
    {
      var refused := RequireLocked(expected);
      if refused.Some? {
        return Refused(refused.value);
      }
      if name in clients {
        return Hit(clients[name]);
      }
      return Miss;
    }

    /** A client is handed out exactly when the service is available, of the runtime
        the caller named, and still the one the client was connected from; the
        first client of a name stays. */
    method PublishLocked(name: Name, expected: Option<RuntimeId>, before: Option<RuntimeId>,
                         peer: Option<Handle>, client: Client) returns (r: Looked)
      requires client.name == name && before == Some(client.runtime) && peer == Some(client.handle)
      modifies this
      ensures (View(), r) == Publish(old(View()), name, expected, before, peer, client)
      ensures old(Consistent(View())) ==> Consistent(View())
      ensures r.Hit? <==>
                record.Some? && runtime == before && handle == peer && (expected.Some? ==> runtime == expected)
      ensures r.Hit? ==> r.client == if name in old(clients) then old(clients)[name] else client
      ensures r.Hit? ==> View() == old(View()).(clients := old(clients)[name := r.client])
      ensures !r.Hit? ==> r.Refused? && View() == old(View())
      ensures r.Refused? ==> r.error == if expected.Some? && runtime.Some? && runtime != expected
                then RuntimeChanged else Unavailable
    {
      var refused := RequireLocked(expected);
      if refused.Some? {
        return Refused(refused.value);
      }
      if runtime != before || handle != peer {
        return Refused(Unavailable);
      }
      if name !in clients {
        clients := clients[name := client];
      }
      return Hit(clients[name]);
    }

    /** A record with an identity is installed, with its own API bindings, and the
        clients of the one before are dropped; any other changes nothing. */
    method InstallLocked(e: RecordEvent) returns (r: Option<Error>)
      modifies this
      ensures (View(), r) == Install(old(View()), e)
      ensures old(Consistent(View())) ==> Consistent(View())
      ensures r.None? <==> e.serviceMatches && e.runtime.Some? && e.handle.Some?
      ensures r.Some? ==> r == Some(BadRecord) && View() == old(View())
      ensures r.None? ==>
                && record == Some(Record(e.runtime.value, e.handle.value, e.apis)) && clients == map[]
                && runtime == e.runtime && handle == e.handle
                && started == old(started) && directory == old(directory)
                && (e.directoryRuntime.Some? ==> directoryRuntime == e.directoryRuntime)
                && (e.directoryRuntime.None? ==> directoryRuntime == old(directoryRuntime))
    {
      if !e.serviceMatches || e.runtime.None? || e.handle.None? {
        return Some(BadRecord);
      }
      if e.directoryRuntime.Some? {
        directoryRuntime := e.directoryRuntime;
      }
      runtime, handle := e.runtime, e.handle;
      record := Some(Record(e.runtime.value, e.handle.value, e.apis));
      clients := map[];
      return None;
    }

    /** A disconnect of the installed identity drops the record and the clients and
        nothing else; one of another identity changes nothing. */
    method DisconnectLocked(lost: Option<RuntimeId>, peer: Option<Handle>)
      modifies this
      ensures View() == Disconnect(old(View()), lost, peer)
      ensures old(Consistent(View())) ==> Consistent(View())
      ensures lost == old(runtime) && peer == old(handle) ==>
                View() == old(View()).(record := None, clients := map[])
      ensures lost != old(runtime) || peer != old(handle) ==> View() == old(View())
    {
      if lost != runtime || peer != handle {
        return;
      }
      record := None;
      clients := map[];
    }

    /** The loss of the service's own peer drops the clients and nothing else. */
    method PeerLostLocked(lost: Option<RuntimeId>)
      modifies this
      ensures View() == PeerLost(old(View()), lost)
      ensures old(Consistent(View())) ==> Consistent(View())
      ensures lost.Some? && lost == old(runtime) ==> View() == old(View()).(clients := map[])
      ensures lost.None? || lost != old(runtime) ==> View() == old(View())
    {
      if lost.Some? && lost == runtime {
        clients := map[];
      }
    }

    /** The loss of the directory, unless it is known to be of another one, drops
        directory, record and clients and nothing else. */
    method DirectoryLostLocked(lost: Option<RuntimeId>)
      modifies this
      ensures View() == DirectoryLost(old(View()), lost)
      ensures old(Consistent(View())) ==> Consistent(View())
      ensures old(directoryRuntime).None? || lost.None? || lost == old(directoryRuntime) ==>
                View() == old(View()).(directory := None, record := None, clients := map[])
      ensures old(directoryRuntime).Some? && lost.Some? && lost != old(directoryRuntime) ==> View() == old(View())
    {
      if directoryRuntime.Some? && lost.Some? && directoryRuntime != lost {
        return;
      }
      directory := None;
      record := None;
      clients := map[];
    }

    method BindDirectoryLocked(found: nat, foundRuntime: Option<RuntimeId>)
      modifies this
      ensures View() == BindDirectory(old(View()), found, foundRuntime)
      ensures View() == old(View()).(directory := Some(found), directoryRuntime := foundRuntime)
      ensures old(Consistent(View())) ==> Consistent(View())
    {
      directory, directoryRuntime := Some(found), foundRuntime;
    }

    /** Closing a started binding drops record and clients; closing twice changes
        nothing. */
    method CloseLocked()
      modifies this
      ensures View() == Close(old(View()))
      ensures old(Consistent(View())) ==> Consistent(View())
      ensures old(started) ==> View() == old(View()).(started := false, record := None, clients := map[])
      ensures !old(started) ==> View() == old(View())
    {
      if !started {
        return;
      }
      started := false;
      record := None;
      clients := map[];
    }
  }
}
