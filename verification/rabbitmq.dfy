/** Queue metrics as the monitor sees them, and the allow-list filter over them. */
module RabbitMQ {
  import opened Wrappers
  import Config
  import Sequences

  /** Metrics of one queue at one fetch. */
  datatype QueueInfo = QueueInfo(
    name: string,
    vhost: string,
    messagesReady: int,
    messages: int,
    consumers: int,
    consumeRate: real,
    ackRate: real,
    publishRate: real,
    state: string)

  /** The rate part of a broker record; the broker omits it for queues without traffic. */
  datatype MessageStats = MessageStats(deliverGetRate: real, ackRate: real, publishRate: real)

  /** A queue record as the management API returns it. */
  datatype BrokerQueue = BrokerQueue(
    name: string, vhost: string, messagesReady: int, messages: int, consumers: int,
    messageStats: Option<MessageStats>)

  /** No two queues share a name. */
  predicate DistinctNames(qs: seq<QueueInfo>) {
    forall i, j :: 0 <= i < j < |qs| ==> qs[i].name != qs[j].name
  }

  /** Copies the counters; rates come from the message stats, and are all zero when those are absent. */
  function ConvertQueueInfo(q: BrokerQueue): (r: QueueInfo)
    ensures r.name == q.name && r.vhost == q.vhost && r.state == ""
    ensures r.messagesReady == q.messagesReady && r.messages == q.messages && r.consumers == q.consumers
    ensures q.messageStats.None? ==> r.consumeRate == 0.0 && r.ackRate == 0.0 && r.publishRate == 0.0
    ensures q.messageStats.Some? ==>
      && r.consumeRate == q.messageStats.value.deliverGetRate
      && r.ackRate == q.messageStats.value.ackRate
      && r.publishRate == q.messageStats.value.publishRate
  {
    var info := QueueInfo(q.name, q.vhost, q.messagesReady, q.messages, q.consumers, 0.0, 0.0, 0.0, "");
    match q.messageStats
    case None => info
    case Some(s) => info.(consumeRate := s.deliverGetRate, ackRate := s.ackRate, publishRate := s.publishRate)
  }

  /** The names listed in the filter. */
  function NamesOf(filter: seq<Config.QueueConfig>): set<string> {
    set i | 0 <= i < |filter| :: filter[i].name
  }

  /** The queues whose name is in `names`, in their original order. */
  function Keep(qs: seq<QueueInfo>, names: set<string>): seq<QueueInfo> {
    if qs == [] then []
    else Keep(qs[..|qs| - 1], names) + (if qs[|qs| - 1].name in names then [qs[|qs| - 1]] else [])
  }

  /** The queues to monitor: all of them when the filter is empty, otherwise those named in it. */
  function Filtered(all: seq<QueueInfo>, filter: seq<Config.QueueConfig>): seq<QueueInfo> {
    if |filter| == 0 then all else Keep(all, NamesOf(filter))
  }

  /**
   * Builds the name table from the filter, then keeps every queue whose name is in it.
   */
  method FilterQueues(allQueues: seq<QueueInfo>, filter: seq<Config.QueueConfig>) returns (result: seq<QueueInfo>)
    ensures result == Filtered(allQueues, filter)
  {
    if |filter| == 0 {
      return allQueues;
    }
    var filterMap: map<string, bool> := map[];
    for i := 0 to |filter|
      invariant filterMap.Keys == NamesOf(filter[..i])
      invariant forall n :: n in filterMap ==> filterMap[n]
    {
      assert filter[..i + 1] == filter[..i] + [filter[i]];
      filterMap := filterMap[filter[i].name := true];
    }
    assert filter[..|filter|] == filter;
    result := [];
    for i := 0 to |allQueues|
      invariant result == Keep(allQueues[..i], NamesOf(filter))
    {
      assert allQueues[..i + 1][..i] == allQueues[..i];
      var q := allQueues[i];
      if q.name in filterMap && filterMap[q.name] {
        result := result + [q];
      }
    }
    assert allQueues[..|allQueues|] == allQueues;
  }

  /** A queue is kept exactly when it is an input queue whose name is in the table. */
  lemma {:induction false} KeepMembers(qs: seq<QueueInfo>, names: set<string>, q: QueueInfo)
    ensures q in Keep(qs, names) <==> q in qs && q.name in names
  {
    if qs != [] {
      KeepMembers(qs[..|qs| - 1], names, q);
      assert qs == qs[..|qs| - 1] + [qs[|qs| - 1]];
    }
  }

  /** Every queue is kept as many times as it occurs in the input, or not at all. */
  lemma {:induction false} KeepMultiplicity(qs: seq<QueueInfo>, names: set<string>, q: QueueInfo)
    ensures multiset(Keep(qs, names))[q] == if q.name in names then multiset(qs)[q] else 0
  {
    if qs != [] {
      KeepMultiplicity(qs[..|qs| - 1], names, q);
      assert qs == qs[..|qs| - 1] + [qs[|qs| - 1]];
    }
  }

  /** The input positions of the kept queues. */
  function KeptIndices(qs: seq<QueueInfo>, names: set<string>): seq<nat> {
    if qs == [] then []
    else KeptIndices(qs[..|qs| - 1], names) + (if qs[|qs| - 1].name in names then [|qs| - 1] else [])
  }

  /** The filter keeps the input order: its result is a subsequence of the input, so it is no longer. */
  lemma {:induction false} KeepIsSubsequence(qs: seq<QueueInfo>, names: set<string>)
    ensures Sequences.IsEmbedding(KeptIndices(qs, names), Keep(qs, names), qs)
    ensures |Keep(qs, names)| <= |qs|
  {
    if qs != [] {
      var init := qs[..|qs| - 1];
      KeepIsSubsequence(init, names);
      assert qs == init + [qs[|qs| - 1]];
      Sequences.ExtendEmbedding(KeptIndices(init, names), Keep(init, names), init, qs[|qs| - 1], qs[|qs| - 1].name in names);
    }
  }

  /** Properties of the allow-list filter as a whole. */
  lemma FilterProperties(all: seq<QueueInfo>, filter: seq<Config.QueueConfig>, q: QueueInfo)
    ensures |filter| == 0 ==> Filtered(all, filter) == all
    ensures |filter| > 0 ==> (q in Filtered(all, filter) <==> q in all && exists i :: 0 <= i < |filter| && filter[i].name == q.name)
    ensures |filter| > 0 ==> multiset(Filtered(all, filter))[q] == if q.name in NamesOf(filter) then multiset(all)[q] else 0
    ensures Sequences.IsSubsequence(Filtered(all, filter), all) && |Filtered(all, filter)| <= |all|
  {
    KeepMembers(all, NamesOf(filter), q);
    KeepMultiplicity(all, NamesOf(filter), q);
    KeepIsSubsequence(all, NamesOf(filter));
    if |filter| == 0 {
      var idx := seq(|all|, k => k);
      assert Sequences.IsEmbedding(idx, all, all);
    }
  }
}
