/**
 The agent's two kinds of queue: messages that arrive on one socket and are sorted by sender, and
 completion notifications that are polled in batches. What the network delivers is a sequence
 fixed in advance; a call that has to wait beyond its end returns None.
 */
module NixlAgent {
  import opened Wrappers

  type Name = string

  function Queue<M>(queues: map<Name, seq<M>>, name: Name): seq<M> {
    if name in queues then queues[name] else []
  }

  function Push<M>(queues: map<Name, seq<M>>, name: Name, items: seq<M>): map<Name, seq<M>> {
    queues[name := Queue(queues, name) + items]
  }

  // ---------- messages ----------

  datatype Mail<M> = Mail(queues: map<Name, seq<M>>, inbox: seq<(Name, M)>)

  function From<M>(inbox: seq<(Name, M)>, name: Name): seq<M> {
    if inbox == [] then []
    else (if inbox[0].0 == name then [inbox[0].1] else []) + From(inbox[1..], name)
  }

  /** Everything `name` has sent and the agent has not handed out yet. */
  function Stream<M>(mail: Mail<M>, name: Name): seq<M> {
    Queue(mail.queues, name) + From(mail.inbox, name)
  }

  /** read_message */
  function Read<M>(mail: Mail<M>, name: Name): (Option<M>, Mail<M>)
    decreases |mail.inbox|
  {
    var queue := Queue(mail.queues, name);
    if queue != [] then (Some(queue[0]), mail.(queues := mail.queues[name := queue[1..]]))
    else if mail.inbox == [] then (None, mail)
    else Read(Arrive(mail), name)
  }

  function Arrive<M>(mail: Mail<M>): (r: Mail<M>)
    requires mail.inbox != []
    ensures |r.inbox| < |mail.inbox|
  {
    Mail(Push(mail.queues, mail.inbox[0].0, [mail.inbox[0].1]), mail.inbox[1..])
  }

  lemma {:induction false} ArriveKeepsStreams<M>(mail: Mail<M>, name: Name)
    requires mail.inbox != []
    ensures Stream(Arrive(mail), name) == Stream(mail, name)
  {
  }

  /** A read takes the oldest message of the sender it was asked for and leaves every other sender's alone. */
  lemma {:induction false} ReadIsFifo<M>(mail: Mail<M>, name: Name, other: Name)
    ensures var (r, rest) := Read(mail, name);
            && (r.Some? <==> Stream(mail, name) != [])
            && (r.Some? ==> Stream(mail, name) == [r.value] + Stream(rest, name))
            && (r.None? ==> rest.inbox == [] && Stream(rest, name) == [])
            && (other != name ==> Stream(rest, other) == Stream(mail, other))
    decreases |mail.inbox|
  {
    var queue := Queue(mail.queues, name);
    if queue != [] {
      assert queue == [queue[0]] + queue[1..];
    } else if mail.inbox != [] {
      ArriveKeepsStreams(mail, name);
      ArriveKeepsStreams(mail, other);
      ReadIsFifo(Arrive(mail), name, other);
    }
  }

  /** A series of reads: the messages handed out to the reads for `name`, and the mail left. */
  function ReadAll<M>(mail: Mail<M>, asks: seq<Name>, name: Name): (seq<M>, Mail<M>)
    decreases |asks|
  {
    if asks == [] then ([], mail)
    else
      var (r, next) := Read(mail, asks[0]);
      var (more, rest) := ReadAll(next, asks[1..], name);
      (if asks[0] == name && r.Some? then [r.value] + more else more, rest)
  }

  lemma {:induction false} Regroup<M>(a: seq<M>, b: seq<M>, c: seq<M>)
    ensures (a + b) + c == a + (b + c)
  {
  }

  /** However the reads for different senders interleave, each sender's messages come out once and in order. */
  lemma {:induction false} ReadsKeepOrder<M>(mail: Mail<M>, asks: seq<Name>, name: Name)
    ensures var (got, rest) := ReadAll(mail, asks, name);
            got + Stream(rest, name) == Stream(mail, name)
    decreases |asks|
  {
    if asks != [] {
      var (r, next) := Read(mail, asks[0]);
      var (more, rest) := ReadAll(next, asks[1..], name);
      ReadIsFifo(mail, asks[0], name);
      hide Read, Stream;
      ReadsKeepOrder(next, asks[1..], name);
      if asks[0] == name && r.Some? {
        Regroup([r.value], more, Stream(rest, name));
      }
    }
  }

  // ---------- notifications ----------

  /** One result of get_new_notifs: a dict, in its iteration order. */
  type Batch<K> = seq<(Name, seq<K>)>

  datatype Box<K> = Box(queues: map<Name, seq<K>>, polls: seq<Batch<K>>)

  function Extend<K>(queues: map<Name, seq<K>>, batch: Batch<K>): map<Name, seq<K>> {
    if batch == [] then queues
    else
      var last := |batch| - 1;
      Push(Extend(queues, batch[..last]), batch[last].0, batch[last].1)
  }

  /** The loop variable of the inner loop shadows the parameter: the last name of a batch replaces it. */
  function LastName<K>(batch: Batch<K>, name: Name): Name {
    if batch == [] then name else batch[|batch| - 1].0
  }

  function Poll<K>(box: Box<K>): Box<K>
    requires box.polls != []
  {
    Box(Extend(box.queues, box.polls[0]), box.polls[1..])
  }

  /** get_notification: the notification, the agent it came from, and the state left. */
  function Get<K>(box: Box<K>, name: Name): (Option<K>, Name, Box<K>)
    decreases |box.polls|
  {
    var queue := Queue(box.queues, name);
    if queue != [] then (Some(queue[0]), name, box.(queues := box.queues[name := queue[1..]]))
    else if box.polls == [] then (None, name, box)
    else Get(Poll(box), LastName(box.polls[0], name))
  }

  function OfBatch<K>(batch: Batch<K>, name: Name): seq<K> {
    if batch == [] then []
    else
      var last := |batch| - 1;
      OfBatch(batch[..last], name) + (if batch[last].0 == name then batch[last].1 else [])
  }

  function OfPolls<K>(polls: seq<Batch<K>>, name: Name): seq<K> {
    if polls == [] then [] else OfBatch(polls[0], name) + OfPolls(polls[1..], name)
  }

  /** Every notification of `name` that has not been handed out yet. */
  function Pending<K>(box: Box<K>, name: Name): seq<K> {
    Queue(box.queues, name) + OfPolls(box.polls, name)
  }

  lemma {:induction false} PushQueue<K>(queues: map<Name, seq<K>>, to: Name, items: seq<K>, name: Name)
    ensures Queue(Push(queues, to, items), name) == Queue(queues, name) + if to == name then items else []
  {
  }

  lemma {:induction false} ExtendQueue<K>(queues: map<Name, seq<K>>, batch: Batch<K>, name: Name)
    ensures Queue(Extend(queues, batch), name) == Queue(queues, name) + OfBatch(batch, name)
  {
    if batch != [] {
      var last := |batch| - 1;
      ExtendQueue(queues, batch[..last], name);
      PushQueue(Extend(queues, batch[..last]), batch[last].0, batch[last].1, name);
      var items := if batch[last].0 == name then batch[last].1 else [];
      Regroup(Queue(queues, name), OfBatch(batch[..last], name), items);
      hide Queue, Push;
    }
  }

  lemma {:induction false} PollKeepsPending<K>(box: Box<K>, name: Name)
    requires box.polls != []
    ensures Pending(Poll(box), name) == Pending(box, name)
  {
    ExtendQueue(box.queues, box.polls[0], name);
  }

  /** No notification is lost or reordered: the one returned was the oldest of the agent it came from. */
  lemma {:induction false} GetIsFifo<K>(box: Box<K>, name: Name, other: Name)
    ensures var (r, source, rest) := Get(box, name);
            && (r.Some? ==> Pending(box, source) == [r.value] + Pending(rest, source))
            && ((r.None? || other != source) ==> Pending(rest, other) == Pending(box, other))
    decreases |box.polls|
  {
    var (r, source, rest) := Get(box, name);
    var queue := Queue(box.queues, name);
    if queue != [] {
      assert queue == [queue[0]] + queue[1..];
    } else if box.polls != [] {
      GetIsFifo(Poll(box), LastName(box.polls[0], name), other);
      PollKeepsPending(box, source);
      PollKeepsPending(box, other);
    }
  }

  /** get_new_notifs has an entry only for an agent that sent something. */
  ghost predicate Delivered<K>(polls: seq<Batch<K>>) {
    forall i, j :: 0 <= i < |polls| && 0 <= j < |polls[i]| ==> polls[i][j].1 != []
  }

  /** The first poll that brings anything. */
  function FirstBatch<K>(polls: seq<Batch<K>>): Batch<K> {
    if polls == [] then [] else if polls[0] != [] then polls[0] else FirstBatch(polls[1..])
  }

  /**
   The waiter is handed a notification of the agent it asked for exactly when one was queued
   already or that agent comes last in the first poll that brings anything.
   */
  lemma {:induction false} RightNotification<K>(box: Box<K>, name: Name)
    requires Delivered(box.polls)
    ensures var (r, source, _) := Get(box, name);
            && (r.Some? <==> Queue(box.queues, name) != [] || FirstBatch(box.polls) != [])
            && (source == name <==> Queue(box.queues, name) != [] || LastName(FirstBatch(box.polls), name) == name)
    decreases |box.polls|
  {
    if Queue(box.queues, name) == [] && box.polls != [] {
      var batch := box.polls[0];
      ExtendQueue(box.queues, batch, LastName(batch, name));
      if batch == [] {
        assert Delivered(box.polls[1..]);
        RightNotification(Poll(box), name);
      }
    }
  }

  /** In a chain only the next agent ever notifies, so the waiter gets that agent's notifications in order. */
  lemma {:induction false} OnlyNotifier<K>(box: Box<K>, name: Name)
    requires Delivered(box.polls)
    requires forall i, j :: 0 <= i < |box.polls| && 0 <= j < |box.polls[i]| ==> box.polls[i][j].0 == name
    ensures var (r, source, rest) := Get(box, name);
            && source == name
            && (r.Some? <==> Pending(box, name) != [])
            && (r.Some? ==> Pending(box, name) == [r.value] + Pending(rest, name))
  {
    RightNotification(box, name);
    GetIsFifo(box, name, name);
    FirstBatchIsOne(box.polls);
    if Queue(box.queues, name) == [] {
      FirstBatchOfPolls(box.polls, name);
    }
  }

  lemma {:induction false} FirstBatchIsOne<K>(polls: seq<Batch<K>>)
    ensures FirstBatch(polls) != [] ==> FirstBatch(polls) in polls
    ensures FirstBatch(polls) == [] ==> forall i :: 0 <= i < |polls| ==> polls[i] == []
  {
    if polls != [] && polls[0] == [] {
      FirstBatchIsOne(polls[1..]);
    }
  }

  lemma {:induction false} FirstBatchOfPolls<K>(polls: seq<Batch<K>>, name: Name)
    requires Delivered(polls)
    requires forall i, j :: 0 <= i < |polls| && 0 <= j < |polls[i]| ==> polls[i][j].0 == name
    ensures FirstBatch(polls) != [] <==> OfPolls(polls, name) != []
  {
    if polls != [] {
      assert Delivered(polls[1..]);
      FirstBatchOfPolls(polls[1..], name);
      if polls[0] != [] {
        var last := |polls[0]| - 1;
        assert polls[0][last].0 == name && polls[0][last].1 != [];
      }
    }
  }

  /** With two notifiers in one poll, the waiter for the first is handed the key of the second. */
  lemma {:induction false} TwoNotifiers<K>(key: K, wrong: K)
    ensures Get(Box(map[], [[("next", [key]), ("other", [wrong])]]), "next").0 == Some(wrong)
  {
    var batch: Batch<K> := [("next", [key]), ("other", [wrong])];
    ExtendQueue(map[], batch, "other");
    assert batch[..1] == [("next", [key])] && batch[..1][..0] == [];
    assert OfBatch(batch[..1], "other") == [];
    assert OfBatch(batch, "other") == [wrong];
  }

  // ---------- the agent ----------

  class Agent<M, K> {
    var messages: map<Name, seq<M>>
    var notifications: map<Name, seq<K>>
    var socket: seq<(Name, M)>
    var newNotifs: seq<Batch<K>>

    constructor (socket: seq<(Name, M)>, newNotifs: seq<Batch<K>>)
      ensures Inbox() == Mail(map[], socket) && Notices() == Box(map[], newNotifs)
    {
      messages := map[];
      notifications := map[];
      this.socket := socket;
      this.newNotifs := newNotifs;
    }

    ghost function Inbox(): Mail<M>
      reads this
    {
      Mail(messages, socket)
    }

    ghost function Notices(): Box<K>
      reads this
    {
      Box(notifications, newNotifs)
    }

    method ReadMessage(name: Name) returns (r: Option<M>)
      modifies this`messages, this`socket
      ensures (r, Inbox()) == Read(old(Inbox()), name)
    {
      while Queue(messages, name) == []
        invariant Read(Inbox(), name) == Read(old(Inbox()), name)
        decreases |socket|
      {
        if socket == [] {
          return None;
        }
        var (sender, message) := socket[0];
        messages := Push(messages, sender, [message]);
        socket := socket[1..];
      }
      var queue := messages[name];
      messages := messages[name := queue[1..]];
      r := Some(queue[0]);
    }

    method GetNotification(remoteName: Name) returns (r: Option<K>, source: Name)
      modifies this`notifications, this`newNotifs
      ensures (r, source, Notices()) == Get(old(Notices()), remoteName)
    {
      source := remoteName;
      while Queue(notifications, source) == []
        invariant Get(Notices(), source) == Get(old(Notices()), remoteName)
        decreases |newNotifs|
      {
        if newNotifs == [] {
          return None, source;
        }
        source := TakeNotifs(source);
      }
      var queue := notifications[source];
      notifications := notifications[source := queue[1..]];
      r := Some(queue[0]);
    }

    /** The body of the polling loop; the inner loop assigns to the parameter of get_notification. */
    method TakeNotifs(remoteName: Name) returns (source: Name)
      requires newNotifs != []
      modifies this`notifications, this`newNotifs
      ensures Notices() == Poll(old(Notices())) && source == LastName(old(newNotifs[0]), remoteName)
    {
      var notifs := newNotifs[0];
      source := remoteName;
      for i := 0 to |notifs|
        modifies this`notifications
        invariant notifications == Extend(old(notifications), notifs[..i])
        invariant source == LastName(notifs[..i], remoteName)
      {
        source := notifs[i].0;
        notifications := Push(notifications, source, notifs[i].1);
        assert notifs[..i + 1][..i] == notifs[..i];
        hide Push;
      }
      assert notifs[..|notifs|] == notifs;
      newNotifs := newNotifs[1..];
    }
  }
}
