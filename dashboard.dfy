/** The dashboard aggregate sent to admins (server.js, `emitDashboardStats`). */
module Dashboard {
  import opened Js
  import opened Sessions

  datatype Stats = Stats(totalUsers: nat, totalVisits: nat, totalOnlineUsers: nat, totalHandlers: nat)

  /** `s.online` is truthy. */
  predicate IsOnline(r: Record) {
    Truthy(Get(r, "online"))
  }

  /** `records.filter((s) => s.online).length`. */
  function CountOnline(rs: seq<Record>): (n: nat)
    ensures n <= |rs|
  {
    if rs == [] then 0
    else
      var n := |rs| - 1;
      CountOnline(rs[..n]) + if IsOnline(rs[n]) then 1 else 0
  }

  /** The ids of the records that are online. */
  ghost function OnlineIds(records: map<SessionId, Record>): set<SessionId> {
    set k | k in records && IsOnline(records[k])
  }

  /** The ids listed in `order` whose records are online. */
  ghost function OnlineAmong(order: seq<SessionId>, records: map<SessionId, Record>): set<SessionId> {
    set k | k in Ids(order) && k in records && IsOnline(records[k])
  }

  /** Counting online records along distinct ids counts the online ids among them. */
  lemma {:induction false} CountOnlineAlong(order: seq<SessionId>, records: map<SessionId, Record>)
    requires Distinct(order)
    requires Ids(order) <= records.Keys
    ensures CountOnline(Values(order, records)) == |OnlineAmong(order, records)|
  {
    if order != [] {
      var n := |order| - 1;
      var prefix := order[..n];
      CountOnlineAlong(prefix, records);
      var vs := Values(order, records);
      assert vs[..n] == Values(prefix, records);
      assert Ids(order) == Ids(prefix) + {order[n]};
      if IsOnline(records[order[n]]) {
        assert OnlineAmong(order, records) == OnlineAmong(prefix, records) + {order[n]};
      } else {
        assert OnlineAmong(order, records) == OnlineAmong(prefix, records);
      }
    }
  }

  /** Counting online records over the Map's values gives the number of online sessions. */
  lemma CountOnlineIsOnlineIds(order: seq<SessionId>, records: map<SessionId, Record>)
    requires Ordered(order, records)
    ensures CountOnline(Values(order, records)) == |OnlineIds(records)|
  {
    CountOnlineAlong(order, records);
    assert OnlineAmong(order, records) == OnlineIds(records);
  }

  /**
   * The aggregate: the Map's size (the length of its insertion order), the visit counter, the
   * online records, the connected admins.
   */
  function Aggregate(order: seq<SessionId>, records: map<SessionId, Record>, totalVisits: nat, handlers: nat): Stats {
    Stats(|order|, totalVisits, CountOnline(Values(order, records)), handlers)
  }

  /**
   * `totalUsers` counts every record ever registered, `totalOnlineUsers` the records that are
   * online, so there are never more online users than users.
   */
  lemma AggregateCounts(order: seq<SessionId>, records: map<SessionId, Record>, totalVisits: nat, handlers: nat)
    requires Ordered(order, records)
    ensures var st := Aggregate(order, records, totalVisits, handlers);
            && st.totalUsers == |records| == |order|
            && st.totalOnlineUsers == |OnlineIds(records)|
            && st.totalOnlineUsers <= st.totalUsers
            && st.totalVisits == totalVisits && st.totalHandlers == handlers
  {
    SizeIsOrderLength(order, records);
    CountOnlineIsOnlineIds(order, records);
  }
}
