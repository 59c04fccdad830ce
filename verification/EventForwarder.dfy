/** Forwarding recovery events through a small channel with an overflow queue: pkg/events/kubeevent_transport.go. */
module EventForwarder {
  import opened Base

  const CHANNEL_CAPACITY := 1

  /** An arrived event: its place in the order of arrival, and whether it had to queue. */
  datatype Item = Item(id: nat, queued: bool)

  /** Each of the first n events occurs exactly once. */
  ghost predicate Accounts(line: seq<Item>, n: nat) {
    && |line| == n
    && (forall i :: 0 <= i < |line| ==> line[i].id < n)
    && (forall i, j :: 0 <= i < j < |line| ==> line[i].id != line[j].id)
  }

  /** A merge of the direct and of the queued events, each in order of arrival. */
  ghost predicate MergesInOrder(line: seq<Item>) {
    forall i, j :: 0 <= i < j < |line| && line[i].queued == line[j].queued ==> line[i].id < line[j].id
  }

  ghost predicate Ascending(line: seq<Item>) {
    forall i, j :: 0 <= i < j < |line| ==> line[i].id < line[j].id
  }

  /** What holds of the whole line: nothing lost or doubled, both orders kept, and any overtaking noticed. */
  ghost predicate LineInv(line: seq<Item>, n: nat, overtaken: bool) {
    Accounts(line, n) && MergesInOrder(line) && (!overtaken <==> Ascending(line))
  }

  ghost predicate AllQueued(items: seq<Item>) {
    forall i :: 0 <= i < |items| ==> items[i].queued
  }

  lemma DirectPositions(sent: seq<Item>, backlog: seq<Item>, n: nat)
    ensures var before, line := sent + backlog, sent + [Item(n, false)] + backlog;
      && (forall i :: 0 <= i < |sent| ==> line[i] == before[i])
      && line[|sent|] == Item(n, false)
      && (forall i :: |sent| < i < |line| ==> line[i] == before[i - 1] && line[i] == backlog[i - 1 - |sent|])
  {
  }

  /** The newest event overtakes the backlog when it is sent directly, and only then breaks the order. */
  lemma DirectInsert(sent: seq<Item>, backlog: seq<Item>, n: nat)
    requires Accounts(sent + backlog, n) && MergesInOrder(sent + backlog) && AllQueued(backlog)
    ensures var line := sent + [Item(n, false)] + backlog;
      && Accounts(line, n + 1) && MergesInOrder(line)
      && (Ascending(line) <==> Ascending(sent + backlog) && backlog == [])
  {
    DirectAccounts(sent, backlog, n);
    DirectMerges(sent, backlog, n);
    DirectOrder(sent, backlog, n);
  }

  lemma DirectAccounts(sent: seq<Item>, backlog: seq<Item>, n: nat)
    requires Accounts(sent + backlog, n)
    ensures Accounts(sent + [Item(n, false)] + backlog, n + 1)
  {
    DirectPositions(sent, backlog, n);
  }

  lemma DirectMerges(sent: seq<Item>, backlog: seq<Item>, n: nat)
    requires Accounts(sent + backlog, n) && MergesInOrder(sent + backlog) && AllQueued(backlog)
    ensures MergesInOrder(sent + [Item(n, false)] + backlog)
  {
    DirectPositions(sent, backlog, n);
  }

  lemma DirectOrder(sent: seq<Item>, backlog: seq<Item>, n: nat)
    requires Accounts(sent + backlog, n)
    ensures Ascending(sent + [Item(n, false)] + backlog) <==> Ascending(sent + backlog) && backlog == []
  {
    var line := sent + [Item(n, false)] + backlog;
    DirectPositions(sent, backlog, n);
    if backlog == [] {
      assert line == sent + backlog + [Item(n, false)];
    } else {
      assert line[|sent| + 1].id < n;
    }
  }

  lemma QueuedAppend(line: seq<Item>, n: nat)
    requires Accounts(line, n) && MergesInOrder(line)
    ensures Accounts(line + [Item(n, true)], n + 1) && MergesInOrder(line + [Item(n, true)])
    ensures Ascending(line + [Item(n, true)]) <==> Ascending(line)
  {
    var longer := line + [Item(n, true)];
    assert forall i :: 0 <= i < |line| ==> longer[i] == line[i];
  }

  lemma DirectLine(sent: seq<Item>, backlog: seq<Item>, n: nat, overtaken: bool)
    requires LineInv(sent + backlog, n, overtaken) && AllQueued(backlog)
    ensures LineInv(sent + [Item(n, false)] + backlog, n + 1, overtaken || backlog != [])
  {
    DirectInsert(sent, backlog, n);
  }

  lemma QueuedLine(line: seq<Item>, n: nat, overtaken: bool)
    requires LineInv(line, n, overtaken)
    ensures LineInv(line + [Item(n, true)], n + 1, overtaken)
  {
    QueuedAppend(line, n);
  }

  ghost function Ids(line: seq<Item>): set<int> {
    if line == [] then {} else Ids(line[..|line| - 1]) + {line[|line| - 1].id}
  }

  lemma {:induction false} IdsAreThere(line: seq<Item>, id: int)
    ensures id in Ids(line) <==> exists i :: 0 <= i < |line| && line[i].id == id
  {
    if line == [] {
    } else {
      var n := |line| - 1;
      IdsAreThere(line[..n], id);
      if id in Ids(line[..n]) {
        var i :| 0 <= i < n && line[..n][i].id == id;
        assert line[i].id == id;
      }
    }
  }

  lemma {:induction false} DistinctIds(line: seq<Item>)
    requires forall i, j :: 0 <= i < j < |line| ==> line[i].id != line[j].id
    ensures |Ids(line)| == |line|
  {
    if line == [] {
    } else {
      var n := |line| - 1;
      DistinctIds(line[..n]);
      IdsAreThere(line[..n], line[n].id);
    }
  }

  /** An account of n events with distinct ids misses none of them. */
  lemma EveryEventIsThere(line: seq<Item>, n: nat, id: nat)
    requires Accounts(line, n) && id < n
    ensures exists i :: 0 <= i < |line| && line[i].id == id
  {
    DistinctIds(line);
    forall x | x in Ids(line) ensures x in Below(n) {
      IdsAreThere(line, x);
    }
    SubsetSize(Ids(line), Below(n));
    IdsAreThere(line, id);
  }

  /**
   * Before cancellation. The queue holds pointers to distinct copies, so it never merges two events;
   * hand is what the queue worker is sending.
   */
  class Forwarder {
    var channel: seq<Item>
    var queue: seq<Item>
    var hand: Option<Item>
    ghost var delivered: seq<Item>
    var arrived: nat              // events forwarded so far; the next event gets this id
    ghost var overtaken: bool     // a direct send happened while an older event was queued or in hand

    constructor ()
      ensures Valid() && arrived == 0 && !overtaken
      ensures channel == [] && queue == [] && hand == None && delivered == []
    {
      channel, queue, hand, delivered, arrived, overtaken := [], [], None, [], 0, false;
      new;
      assert Line() == [];
    }

    ghost function Sent(): seq<Item>
      reads this
    {
      delivered + channel
    }

    ghost function Backlog(): seq<Item>
      reads this
    {
      (if hand.Some? then [hand.value] else []) + queue
    }

    /** All events in the order in which the receiver gets them. */
    ghost function Line(): seq<Item>
      reads this
    {
      Sent() + Backlog()
    }

    ghost predicate Valid()
      reads this
    {
      && |channel| <= CHANNEL_CAPACITY
      && AllQueued(Backlog())
      && LineInv(Line(), arrived, overtaken)
    }

    /** Sends directly if the channel has room, else queues. */
    method Forward()
      requires Valid()
      modifies this
      ensures Valid() && arrived == old(arrived) + 1 && delivered == old(delivered) && hand == old(hand)
      ensures if old(|channel|) < CHANNEL_CAPACITY
        then channel == old(channel) + [Item(old(arrived), false)] && queue == old(queue)
        else channel == old(channel) && queue == old(queue) + [Item(old(arrived), true)]
      ensures overtaken == (old(overtaken) || (old(|channel|) < CHANNEL_CAPACITY && old(Backlog()) != []))
    {
      if |channel| < CHANNEL_CAPACITY {
        SendNow();
      } else {
        Enqueue();
      }
    }

    method SendNow()
      requires Valid() && |channel| < CHANNEL_CAPACITY
      modifies this
      ensures Valid() && arrived == old(arrived) + 1 && delivered == old(delivered) && hand == old(hand)
      ensures channel == old(channel) + [Item(old(arrived), false)] && queue == old(queue)
      ensures overtaken == (old(overtaken) || old(Backlog()) != [])
    {
      DirectLine(Sent(), Backlog(), arrived, overtaken);
      overtaken := overtaken || Backlog() != [];
      channel := channel + [Item(arrived, false)];
      arrived := arrived + 1;
      assert Line() == old(Sent()) + [Item(old(arrived), false)] + old(Backlog());
    }

    method Enqueue()
      requires Valid()
      modifies this
      ensures Valid() && arrived == old(arrived) + 1 && delivered == old(delivered) && hand == old(hand)
      ensures channel == old(channel) && queue == old(queue) + [Item(old(arrived), true)] && overtaken == old(overtaken)
    {
      QueuedLine(Line(), arrived, overtaken);
      queue := queue + [Item(arrived, true)];
      arrived := arrived + 1;
      assert Backlog() == old(Backlog()) + [Item(old(arrived), true)];
      assert Line() == old(Line()) + [Item(old(arrived), true)];
    }

    /** The worker takes the oldest queued event. */
    method Take()
      requires Valid() && hand.None? && queue != []
      modifies this
      ensures Valid() && Line() == old(Line()) && arrived == old(arrived) && overtaken == old(overtaken)
      ensures hand == Some(old(queue)[0]) && queue == old(queue)[1..] && channel == old(channel)
          && delivered == old(delivered)
    {
      hand, queue := Some(queue[0]), queue[1..];
      assert Backlog() == old(Backlog());
    }

    /** The worker puts the event it holds into the channel once there is room. */
    method Send()
      requires Valid() && hand.Some? && |channel| < CHANNEL_CAPACITY
      modifies this
      ensures Valid() && Line() == old(Line()) && arrived == old(arrived) && overtaken == old(overtaken)
      ensures hand == None && channel == old(channel) + [old(hand).value] && queue == old(queue)
          && delivered == old(delivered)
    {
      channel, hand := channel + [hand.value], None;
      assert Line() == old(Line());
      assert forall i :: 0 <= i < |Backlog()| ==> Backlog()[i] == old(Backlog())[i + 1];
    }

    /** The controller receives the next event. */
    method Receive() returns (item: Item)
      requires Valid() && channel != []
      modifies this
      ensures Valid() && Line() == old(Line()) && arrived == old(arrived) && overtaken == old(overtaken)
      ensures item == old(channel)[0] && channel == old(channel)[1..] && delivered == old(delivered) + [item]
      ensures queue == old(queue) && hand == old(hand)
    {
      item := channel[0];
      delivered, channel := delivered + [item], channel[1..];
      assert Sent() == old(Sent());
    }
  }

  method OneSentOneQueued() returns (f: Forwarder)
    ensures fresh(f) && f.Valid() && f.arrived == 2
    ensures f.channel == [Item(0, false)] && f.queue == [Item(1, true)] && f.hand == None && f.delivered == []
  {
    f := new Forwarder();
    f.Forward();
    f.Forward();
  }

  /** Overtaking does occur: the third event is sent directly while the second is still queued. */
  method ThirdBeforeSecond() returns (f: Forwarder)
    ensures fresh(f) && f.Valid() && f.overtaken && f.Line() == [Item(0, false), Item(2, false), Item(1, true)]
  {
    f := OneSentOneQueued();
    var first := f.Receive();
    assert f.Backlog() == [Item(1, true)];
    f.Forward();
    assert f.Sent() == [Item(0, false), Item(2, false)];
  }
}
