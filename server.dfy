/**
 * The session server of server.js: the registry of visitor sessions, the set of admin sockets,
 * the visit counter, and the socket event handlers that change them.
 */
module Server {
  import opened Js
  import opened Ip
  import opened Sessions
  import opened Dashboard
  import opened Merge

  type SocketId = string

  /** `socket.data`: the session the socket registered for, and whether it registered as an admin. */
  datatype SocketData = SocketData(sessionId: Option<SessionId>, isAdmin: bool)

  /** Where an event goes: the admin room, one socket, or the room of one session's sockets. */
  datatype Audience = AdminRoom | ToSocket(socket: SocketId) | SessionRoom(sessionId: SessionId)

  /** An event handed to socket.io. `highlightFields` is present exactly when the event also carries `highlight: true`. */
  datatype Emit =
    | SessionAssigned(to: SocketId, sessionId: SessionId)
    | UserUpdated(audience: Audience, sessionId: SessionId, session: Record, highlightFields: Option<Value>)
    | UserOffline(sessionId: SessionId)
    | DashboardStats(stats: Stats)
    | RedirectUser(room: Audience, nextPage: Value)

  /** The record a first registration creates (server.js:63-69). */
  function NewVisitorRecord(ip: string, now: int): Record {
    map["status" := Str("idle"), "online" := Bool(true), "onlineStatus" := Str("online"),
        "ip" := Str(ip), "lastUpdate" := Num(now)]
  }

  /** The record `user_update` creates for a claimed id the registry lacks (server.js:141-147). */
  function PlaceholderRecord(id: SessionId, now: int): Record {
    map["id" := Str(id), "online" := Bool(true), "status" := Str("login submitted"),
        QUESTIONS := Arr([]), "lastUpdate" := Num(now)]
  }

  /** The record `register_user` leaves under `id` (server.js:62-74). */
  function Admitted(records: map<SessionId, Record>, id: SessionId, ip: string, now: int): Record {
    if id in records then records[id]["online" := Bool(true)]["ip" := Str(ip)] else NewVisitorRecord(ip, now)
  }

  /**
   * A registration leaves the record online from `ip`; a known record keeps every other field,
   * a new one starts idle and stamped with `now`.
   */
  lemma AdmittedRecord(records: map<SessionId, Record>, id: SessionId, ip: string, now: int)
    ensures var r := Admitted(records, id, ip, now);
            && "online" in r && r["online"] == Bool(true) && "ip" in r && r["ip"] == Str(ip)
            && (id in records ==> r.Keys == records[id].Keys + {"online", "ip"})
            && (id in records ==> forall k :: k in records[id] && k != "online" && k != "ip" ==> r[k] == records[id][k])
            && (id !in records ==> r.Keys == {"status", "online", "onlineStatus", "ip", "lastUpdate"})
            && (id !in records ==> r["status"] == Str("idle") && r["onlineStatus"] == Str("online") && r["lastUpdate"] == Num(now))
  {
  }

  /** The registry once `user_update` has stored a placeholder for a claimed id it lacks (server.js:140-148). */
  function WithPlaceholder(records: map<SessionId, Record>, id: SessionId, now: int): (r: map<SessionId, Record>)
    ensures id in r
  {
    if id in records then records else records[id := PlaceholderRecord(id, now)]
  }

  /**
   * The placeholder step keeps every stored record and adds at most the claimed id, with an
   * online record marked "login submitted", holding the id and no questions, stamped `now`.
   */
  lemma PlaceholderKeepsRecords(records: map<SessionId, Record>, id: SessionId, now: int)
    ensures var r := WithPlaceholder(records, id, now);
            && r.Keys == records.Keys + {id}
            && (forall k :: k in records ==> r[k] == records[k])
            && (id !in records ==>
                  && r[id]["id"] == Str(id) && r[id]["online"] == Bool(true)
                  && r[id]["status"] == Str("login submitted") && r[id][QUESTIONS] == Arr([])
                  && r[id]["lastUpdate"] == Num(now))
  {
  }

  /** The record `user_update` stores: the two-pass merge of the payload, stamped with `lastUpdate` (server.js:150-167). */
  function Updated(base: Record, payload: Record, now: int): Record {
    AsWrittenMerge(base, payload)["lastUpdate" := Num(now)]
  }

  /**
   * What an update leaves in the record: `lastUpdate` is `now`; every other payload key holds the
   * payload's value (`highlightFields` included), except that an array under `questions` is
   * stored twice over; keys the payload lacks keep the stored values.
   */
  lemma UpdatedRecord(base: Record, payload: Record, now: int)
    ensures var r := Updated(base, payload, now);
            && r.Keys == base.Keys + payload.Keys + {"lastUpdate"}
            && r["lastUpdate"] == Num(now)
            && (forall k :: k in payload && k != "lastUpdate" && !(k == QUESTIONS && payload[k].Arr?) ==> r[k] == payload[k])
            && (HasQuestionArray(payload) ==> r[QUESTIONS] == Arr(payload[QUESTIONS].elems + payload[QUESTIONS].elems))
            && (forall k :: k in base && k !in payload && k != "lastUpdate" ==> r[k] == base[k])
  {
    if HasQuestionArray(payload) {
      AsWrittenDoublesQuestions(base, payload);
    }
  }

  /** The id a registration settles on: the one the client supplied, or else a freshly generated one. */
  function ResolvedId(existingSessionId: Option<string>, freshId: SessionId): SessionId {
    if TruthyStr(existingSessionId) then existingSessionId.value else freshId
  }

  /** The `user_updated` events that replay the registry to one admin socket, in insertion order. */
  function Replay(socket: SocketId, order: seq<SessionId>, records: map<SessionId, Record>): seq<Emit> {
    seq(|order|, i requires 0 <= i < |order| => UserUpdated(ToSocket(socket), order[i], At(records, order[i]), None))
  }

  /**
   * The replay to an admin covers the registry: one event per record, carrying that record,
   * and no session twice.
   */
  lemma ReplayEachOnce(socket: SocketId, order: seq<SessionId>, records: map<SessionId, Record>)
    requires Ordered(order, records)
    ensures var r := Replay(socket, order, records);
            && |r| == |records|
            && (forall i :: 0 <= i < |r| ==> r[i].UserUpdated? && r[i].sessionId in records && r[i].session == records[r[i].sessionId])
            && (forall id :: id in records ==> exists i :: 0 <= i < |r| && r[i].sessionId == id)
            && (forall i, j :: 0 <= i < j < |r| ==> r[i].sessionId != r[j].sessionId)
  {
    var r := Replay(socket, order, records);
    SizeIsOrderLength(order, records);
    IdsAreElements(order);
    DistinctPositions(order);
    forall id | id in records ensures exists i :: 0 <= i < |r| && r[i].sessionId == id {
      var i :| 0 <= i < |order| && order[i] == id;
      assert r[i].sessionId == id;
    }
  }

  class SessionServer {
    /** The keys of the `sessions` Map in insertion order, and its entries. */
    var order: seq<SessionId>
    var records: map<SessionId, Record>
    /** The `admins` Set of socket ids. */
    var admins: set<SocketId>
    var totalVisits: nat
    /** `socket.data` of every connected socket. */
    var sockets: map<SocketId, SocketData>
    /** Every event emitted so far, oldest first. */
    var outbox: seq<Emit>
    /** Every snapshot written by `saveLogsToFile`, oldest first. */
    var snapshots: seq<seq<(SessionId, Record)>>

    ghost predicate Valid()
      reads this`order, this`records, this`admins, this`sockets
    {
      && Ordered(order, records)
      && forall s :: s in admins <==> s in sockets && sockets[s].isAdmin
    }

    /** Every session id a connected socket has claimed is in the registry. */
    ghost predicate ClaimsPresent()
      reads this`sockets, this`records
    {
      forall s :: s in sockets && TruthyStr(sockets[s].sessionId) ==> sockets[s].sessionId.value in records
    }

    /** The aggregate `emitDashboardStats` sends for the current state. */
    function CurrentStats(): Stats
      reads this`order, this`records, this`totalVisits, this`admins
    {
      Aggregate(order, records, totalVisits, |admins|)
    }

    /**
     * Startup (server.js:18-20, 35-40): the registry is the saved snapshot, entry by entry,
     * verbatim (stale `online` flags included), or empty when there is no snapshot file.
     */
    constructor (saved: Option<seq<(SessionId, Record)>>)
      requires saved.Some? ==> Distinct(KeysOf(saved.value))
      ensures Valid() && ClaimsPresent()
      ensures order == if saved.Some? then KeysOf(saved.value) else []
      ensures records == if saved.Some? then MapOf(saved.value) else map[]
      ensures admins == {} && totalVisits == 0 && sockets == map[] && outbox == [] && snapshots == []
    {
      order, records := [], map[];
      admins, totalVisits, sockets := {}, 0, map[];
      outbox, snapshots := [], [];
      new;
      if saved.Some? {
        var entries := saved.value;
        var i := 0;
        while i < |entries|
          invariant 0 <= i <= |entries|
          invariant Valid()
          invariant order == KeysOf(entries[..i]) && records == MapOf(entries[..i])
          invariant admins == {} && totalVisits == 0 && sockets == map[] && outbox == [] && snapshots == []
        {
          LoadStep(entries, i);
          SetSession(entries[i].0, entries[i].1);
          i := i + 1;
        }
        assert entries[..i] == entries;
      }
    }

    /** `sessions.set(id, r)`: a new key goes to the end of the insertion order, a known key keeps its place. */
    method SetSession(id: SessionId, r: Record)
      requires Valid()
      modifies this`order, this`records
      ensures Valid() && (old(ClaimsPresent()) ==> ClaimsPresent())
      ensures records == old(records)[id := r] && records.Keys == old(records).Keys + {id}
      ensures order == if id in old(records) then old(order) else old(order) + [id]
    {
      if id !in records {
        DistinctAppend(order, id);
        order := order + [id];
      }
      records := records[id := r];
    }

    /** `emitDashboardStats` (server.js:22-33): one `dashboard_stats` event to the admin room. */
    method EmitDashboardStats()
      modifies this`outbox
      ensures outbox == old(outbox) + [DashboardStats(CurrentStats())]
    {
      outbox := outbox + [DashboardStats(Aggregate(order, records, totalVisits, |admins|))];
    }

    /** `saveLogsToFile` (server.js:42-45): the whole registry, in insertion order, is written out. */
    method SaveLogsToFile()
      modifies this`snapshots
      ensures snapshots == old(snapshots) + [Entries(order, records)]
    {
      snapshots := snapshots + [Entries(order, records)];
    }

    /** The loop at server.js:125-130: one `user_updated` event per record to `socket`, in insertion order. */
    method ReplayTo(socket: SocketId)
      requires Valid()
      modifies this`outbox
      ensures outbox == old(outbox) + Replay(socket, order, records)
    {
      var i := 0;
      while i < |order|
        invariant 0 <= i <= |order|
        invariant outbox == old(outbox) + Replay(socket, order[..i], records)
      {
        var sessionId := order[i];
        outbox := outbox + [UserUpdated(ToSocket(socket), sessionId, At(records, sessionId), None)];
        i := i + 1;
        assert Replay(socket, order[..i], records) == Replay(socket, order[..i - 1], records)
          + [UserUpdated(ToSocket(socket), sessionId, At(records, sessionId), None)];
      }
      assert order[..i] == order;
    }

    /** `socket.data.sessionId = id`: the socket claims the session `id`. */
    method Claim(socket: SocketId, id: SessionId)
      requires Valid() && socket in sockets
      modifies this`sockets
      ensures Valid() && (old(ClaimsPresent()) && id in records ==> ClaimsPresent())
      ensures sockets == old(sockets)[socket := old(sockets)[socket].(sessionId := Some(id))]
    {
      sockets := sockets[socket := sockets[socket].(sessionId := Some(id))];
    }

    /** socket.io forgets a socket that has gone, and `admins.delete(socket.id)` drops it from the admin set. */
    method Forget(socket: SocketId)
      requires Valid() && socket in sockets
      modifies this`sockets, this`admins
      ensures Valid() && (old(ClaimsPresent()) ==> ClaimsPresent())
      ensures admins == old(admins) - {socket} && sockets == old(sockets) - {socket}
    {
      if sockets[socket].isAdmin {
        admins := admins - {socket};
      }
      sockets := sockets - {socket};
    }

    /** A socket connects (server.js:47): its `socket.data` starts empty. */
    method Connect(socket: SocketId)
      requires Valid() && socket !in sockets
      modifies this`sockets
      ensures Valid() && (old(ClaimsPresent()) ==> ClaimsPresent())
      ensures sockets == old(sockets)[socket := SocketData(None, false)]
    {
      sockets := sockets[socket := SocketData(None, false)];
    }

    /**
     * The registry step of `register_user` (server.js:62-74): an unknown id gets a new idle record
     * at the end of the insertion order; a known id has only `online` and `ip` refreshed.
     */
    method Admit(id: SessionId, ip: string, now: int)
      requires Valid()
      modifies this`order, this`records
      ensures Valid() && (old(ClaimsPresent()) ==> ClaimsPresent())
      ensures id in records
      ensures records == old(records)[id := Admitted(old(records), id, ip, now)]
      ensures order == if id in old(records) then old(order) else old(order) + [id]
    {
      if id !in records {
        SetSession(id, NewVisitorRecord(ip, now));
      } else {
        var session := records[id];
        SetSession(id, session["online" := Bool(true)]["ip" := Str(ip)]);
      }
    }

    /**
     * The bookkeeping of `register_user` (server.js:62-77): the record is admitted and the socket
     * claims its id.
     */
    method Enter(socket: SocketId, id: SessionId, ip: string, now: int)
      requires Valid() && socket in sockets
      modifies this`order, this`records, this`sockets
      ensures Valid() && (old(ClaimsPresent()) ==> ClaimsPresent())
      ensures id in records
      ensures records == old(records)[id := Admitted(old(records), id, ip, now)]
      ensures order == if id in old(records) then old(order) else old(order) + [id]
      ensures sockets == old(sockets)[socket := old(sockets)[socket].(sessionId := Some(id))]
      ensures |order| == |old(order)| + if id in old(records) then 0 else 1
    {
      Admit(id, ip, now);
      Claim(socket, id);
    }

    /**
     * `register_user` (server.js:49-92). Without a usable id the client gets `freshId` (uuidv4)
     * and the visit counter goes up by one. The record is admitted, the socket claims the id,
     * which is sent back to it, and the admins get the record and then the dashboard.
     */
    method RegisterUser(socket: SocketId, existingSessionId: Option<string>, forwardedFor: Option<string>,
                        remoteAddress: string, freshId: SessionId, now: int)
      requires Valid() && socket in sockets
      requires !TruthyStr(existingSessionId) ==> freshId != "" && freshId !in records
      modifies this`order, this`records, this`sockets, this`outbox, this`totalVisits
      ensures Valid() && (old(ClaimsPresent()) ==> ClaimsPresent())
      ensures var id := ResolvedId(existingSessionId, freshId);
              && records == old(records)[id := Admitted(old(records), id, ResolveIp(forwardedFor, remoteAddress), now)]
              && order == (if id in old(records) then old(order) else old(order) + [id])
              && sockets == old(sockets)[socket := old(sockets)[socket].(sessionId := Some(id))]
              && outbox == old(outbox) + [SessionAssigned(socket, id), UserUpdated(AdminRoom, id, records[id], None)]
                                       + [DashboardStats(CurrentStats())]
      ensures totalVisits == old(totalVisits) + if TruthyStr(existingSessionId) then 0 else 1
      ensures old(totalVisits) <= |old(order)| ==> totalVisits <= |order|
    {
      var ipAddress := ResolveIp(forwardedFor, remoteAddress);
      var sessionId := ResolvedId(existingSessionId, freshId);
      Enter(socket, sessionId, ipAddress, now);
      outbox := outbox + [SessionAssigned(socket, sessionId), UserUpdated(AdminRoom, sessionId, records[sessionId], None)];
      if !TruthyStr(existingSessionId) {
        // A fresh id is a new session, so every counted visit has its own record.
        totalVisits := totalVisits + 1;
      }
      EmitDashboardStats();
    }

    /** The offline step of `disconnect` (server.js:103-111): a known record goes offline with one notice. */
    method MarkOffline(id: SessionId)
      requires Valid()
      modifies this`order, this`records, this`outbox
      ensures Valid() && (old(ClaimsPresent()) ==> ClaimsPresent())
      ensures order == old(order) && records.Keys == old(records).Keys
      ensures id !in old(records) ==> records == old(records) && outbox == old(outbox)
      ensures id in old(records) ==>
                && records == old(records)[id := old(records)[id]["online" := Bool(false)]]
                && outbox == old(outbox) + [UserOffline(id)]
    {
      if id in records {
        SetSession(id, records[id]["online" := Bool(false)]);
        outbox := outbox + [UserOffline(id)];
      }
    }

    /**
     * What `disconnect` does for a claimed id (server.js:103-113): the record goes offline if it
     * exists, then the registry is saved and the dashboard sent.
     */
    method Leave(id: SessionId)
      requires Valid()
      modifies this`order, this`records, this`outbox, this`snapshots
      ensures Valid() && (old(ClaimsPresent()) ==> ClaimsPresent())
      ensures order == old(order) && records.Keys == old(records).Keys
      ensures id !in old(records) ==>
                && records == old(records)
                && outbox == old(outbox) + [DashboardStats(CurrentStats())]
      ensures id in old(records) ==>
                && records == old(records)[id := old(records)[id]["online" := Bool(false)]]
                && outbox == old(outbox) + [UserOffline(id), DashboardStats(CurrentStats())]
      ensures snapshots == old(snapshots) + [Entries(order, records)]
    {
      MarkOffline(id);
      SaveLogsToFile();
      EmitDashboardStats();
    }

    /**
     * `disconnect` (server.js:95-114). The socket leaves the admin set; when it claimed a session
     * it leaves that session as `Leave` describes; without a claim nothing else happens.
     */
    method Disconnect(socket: SocketId)
      requires Valid() && socket in sockets
      modifies this`sockets, this`admins, this`order, this`records, this`outbox, this`snapshots
      ensures Valid() && (old(ClaimsPresent()) ==> ClaimsPresent())
      ensures admins == old(admins) - {socket} && sockets == old(sockets) - {socket}
      ensures order == old(order)
      ensures !TruthyStr(old(sockets[socket].sessionId)) ==>
                records == old(records) && outbox == old(outbox) && snapshots == old(snapshots)
      ensures var claim := old(sockets[socket].sessionId);
              TruthyStr(claim) && claim.value !in old(records) ==>
                && records == old(records)
                && outbox == old(outbox) + [DashboardStats(CurrentStats())]
                && snapshots == old(snapshots) + [Entries(order, records)]
      ensures var claim := old(sockets[socket].sessionId);
              TruthyStr(claim) && claim.value in old(records) ==>
                && records == old(records)[claim.value := old(records)[claim.value]["online" := Bool(false)]]
                && outbox == old(outbox) + [UserOffline(claim.value), DashboardStats(CurrentStats())]
                && snapshots == old(snapshots) + [Entries(order, records)]
    {
      var sessionId := sockets[socket].sessionId;
      // socket.io forgets the socket once its handlers have run.
      Forget(socket);
      if TruthyStr(sessionId) {
        Leave(sessionId.value);
      }
    }

    /**
     * `register_admin` (server.js:117-133): the socket joins the admin set (a set insertion, so a
     * repeat leaves the count alone), the dashboard is sent, then every record is replayed to
     * the socket once, in insertion order.
     */
    method RegisterAdmin(socket: SocketId)
      requires Valid() && socket in sockets
      modifies this`admins, this`sockets, this`outbox
      ensures Valid() && (old(ClaimsPresent()) ==> ClaimsPresent())
      ensures admins == old(admins) + {socket}
      ensures |admins| == |old(admins)| + if socket in old(admins) then 0 else 1
      ensures sockets == old(sockets)[socket := old(sockets)[socket].(isAdmin := true)]
      ensures outbox == old(outbox) + [DashboardStats(CurrentStats())] + Replay(socket, order, records)
    {
      admins := admins + {socket};
      sockets := sockets[socket := sockets[socket].(isAdmin := true)];
      EmitDashboardStats();
      ReplayTo(socket);
    }

    /** The placeholder step of `user_update` (server.js:140-148): a claimed id the registry lacks gets a record. */
    method EnsureSession(id: SessionId, now: int)
      requires Valid()
      modifies this`order, this`records
      ensures Valid() && (old(ClaimsPresent()) ==> ClaimsPresent())
      ensures records == WithPlaceholder(old(records), id, now)
      ensures order == if id in old(records) then old(order) else old(order) + [id]
    {
      if id !in records {
        SetSession(id, PlaceholderRecord(id, now));
      }
    }

    /**
     * The merge step of `user_update` (server.js:150-175): the record is merged with the payload,
     * stamped, sent to the admins with the payload's `highlightFields`, and the registry saved.
     */
    method ApplyUpdate(id: SessionId, payload: Record, now: int)
      requires Valid() && id in records
      modifies this`order, this`records, this`outbox, this`snapshots
      ensures Valid() && (old(ClaimsPresent()) ==> ClaimsPresent())
      ensures order == old(order)
      ensures records == old(records)[id := Updated(old(records)[id], payload, now)]
      ensures outbox == old(outbox) + [UserUpdated(AdminRoom, id, records[id], Some(HighlightOf(payload)))]
      ensures snapshots == old(snapshots) + [Entries(order, records)]
    {
      var highlightFields := HighlightOf(payload);
      var session := MergePayload(records[id], payload);
      session := session["lastUpdate" := Num(now)];
      SetSession(id, session);
      outbox := outbox + [UserUpdated(AdminRoom, id, session, Some(highlightFields))];
      SaveLogsToFile();
    }

    /**
     * `user_update` (server.js:136-176). Without a claim nothing happens. Otherwise the claimed
     * record (created first if missing) is replaced by its update, is sent to the admins with the
     * payload's `highlightFields` and saved; no other record changes.
     */
    method UserUpdate(socket: SocketId, payload: Record, now: int)
      requires Valid() && socket in sockets
      modifies this`order, this`records, this`outbox, this`snapshots
      ensures Valid() && (old(ClaimsPresent()) ==> ClaimsPresent())
      ensures !TruthyStr(sockets[socket].sessionId) ==>
                && order == old(order) && records == old(records)
                && outbox == old(outbox) && snapshots == old(snapshots)
      ensures var claim := sockets[socket].sessionId;
              TruthyStr(claim) ==>
                var id := claim.value;
                var stored := WithPlaceholder(old(records), id, now);
                && records == stored[id := Updated(stored[id], payload, now)]
                && order == (if id in old(records) then old(order) else old(order) + [id])
                && outbox == old(outbox) + [UserUpdated(AdminRoom, id, records[id], Some(HighlightOf(payload)))]
                && snapshots == old(snapshots) + [Entries(order, records)]
      ensures old(ClaimsPresent()) ==> order == old(order) && records.Keys == old(records).Keys
    {
      var sessionId := sockets[socket].sessionId;
      if !TruthyStr(sessionId) {
        return;
      }
      var id := sessionId.value;
      EnsureSession(id, now);
      ApplyUpdate(id, payload, now);
    }

    /**
     * `admin_redirect` (server.js:180-193). An unknown id changes nothing and sends nothing.
     * A known id has only its `status` set to "redirected", and one `redirect_user` event goes
     * to that session's room; nothing is saved and `lastUpdate` is left alone.
     */
    method AdminRedirect(sessionId: Value, nextPage: Value)
      requires Valid()
      modifies this`records, this`outbox
      ensures Valid() && (old(ClaimsPresent()) ==> ClaimsPresent())
      ensures !(sessionId.Str? && sessionId.s in old(records)) ==>
                records == old(records) && outbox == old(outbox)
      ensures sessionId.Str? && sessionId.s in old(records) ==>
                && records == old(records)[sessionId.s := old(records)[sessionId.s]["status" := Str("redirected")]]
                && outbox == old(outbox) + [RedirectUser(SessionRoom(sessionId.s), nextPage)]
    {
      if !(sessionId.Str? && sessionId.s in records) {
        return;
      }
      var id := sessionId.s;
      records := records[id := records[id]["status" := Str("redirected")]];
      outbox := outbox + [RedirectUser(SessionRoom(id), nextPage)];
    }
  }
}
