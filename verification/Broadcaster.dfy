/**
 The event broadcaster: every subscriber owns a channel of 32 events; publishing offers the
 event to each channel in turn and drops it where the channel is full.
 */
module Broadcaster {

  const CAPACITY: nat := 32

  /** A buffered channel offered an event without blocking. */
  function Offer<E>(queue: seq<E>, e: E): (r: seq<E>)
    ensures |queue| <= CAPACITY ==> |r| <= CAPACITY
  {
    if |queue| < CAPACITY then queue + [e] else queue
  }

  // ---------------------------------------------------------------------------
  // Any interleaving
  // ---------------------------------------------------------------------------

  type Id = string

  datatype Label<E> = Subscribe(id: Id) | Unsubscribe(id: Id) | Publish(e: E) | Receive(id: Id)

  /** One subscriber: its channel, what it has taken out, and what was published while it was subscribed. */
  datatype Sub<E> = Sub(active: bool, queue: seq<E>, received: seq<E>, offered: seq<E>, kept: seq<bool>)

  type State<E> = map<Id, Sub<E>>

  function NewSub<E>(): Sub<E> {
    Sub(true, [], [], [], [])
  }

  function OfferTo<E>(s: Sub<E>, e: E): Sub<E> {
    if !s.active then s
    else s.(queue := Offer(s.queue, e), offered := s.offered + [e], kept := s.kept + [|s.queue| < CAPACITY])
  }

  function TakeFrom<E>(s: Sub<E>): Sub<E> {
    if s.queue == [] then s else s.(queue := s.queue[1..], received := s.received + [s.queue[0]])
  }

  /** An id is subscribed once; a receive on an empty channel does nothing yet. */
  function Step<E>(s: State<E>, l: Label<E>): State<E> {
    match l
    case Subscribe(id) => if id in s then s else s[id := NewSub()]
    case Unsubscribe(id) => if id in s then s[id := s[id].(active := false)] else s
    case Publish(e) => map id | id in s :: OfferTo(s[id], e)
    case Receive(id) => if id in s then s[id := TakeFrom(s[id])] else s
  }

  function Run<E>(ls: seq<Label<E>>): State<E> {
    if ls == [] then map[] else Step(Run(ls[..|ls| - 1]), ls[|ls| - 1])
  }

  lemma OneMore<E>(ls: seq<Label<E>>, l: Label<E>)
    ensures Run(ls + [l]) == Step(Run(ls), l)
  {
    assert (ls + [l])[..|ls + [l]| - 1] == ls;
  }

  /** The elements of `all` marked true, in order. */
  function Marked<E>(all: seq<E>, marks: seq<bool>): seq<E>
    requires |marks| == |all|
  {
    if all == [] then []
    else Marked(all[..|all| - 1], marks[..|all| - 1]) + if marks[|all| - 1] then [all[|all| - 1]] else []
  }

  /** What was received and then what is queued are the offered events that were kept, in order. */
  ghost predicate Faithful<E>(s: Sub<E>) {
    && |s.kept| == |s.offered|
    && |s.queue| <= CAPACITY
    && s.received + s.queue == Marked(s.offered, s.kept)
  }

  lemma OfferKeepsFaithful<E>(s: Sub<E>, e: E)
    requires Faithful(s)
    ensures Faithful(OfferTo(s, e))
  {
    var t := OfferTo(s, e);
    if s.active {
      assert t.offered[..|s.offered|] == s.offered && t.kept[..|s.offered|] == s.kept;
    }
  }

  lemma TakeKeepsFaithful<E>(s: Sub<E>)
    requires Faithful(s)
    ensures Faithful(TakeFrom(s))
  {
    if s.queue != [] {
      assert s.received + [s.queue[0]] + s.queue[1..] == s.received + s.queue;
    }
  }

  /** In every interleaving each subscriber sees an in-order subsequence of what was published to it. */
  lemma {:induction false} EverySubscriberIsFaithful<E>(ls: seq<Label<E>>, id: Id)
    requires id in Run(ls)
    ensures Faithful(Run(ls)[id])
    decreases |ls|
  {
    var before, l := Run(ls[..|ls| - 1]), ls[|ls| - 1];
    if id in before {
      EverySubscriberIsFaithful(ls[..|ls| - 1], id);
      match l
      case Publish(e) => OfferKeepsFaithful(before[id], e);
      case Receive(r) => TakeKeepsFaithful(before[id]);
      case _ =>
    }
  }

  /** An id is subscribed from its first subscription until it is unsubscribed. */
  ghost predicate Subscribed<E>(ls: seq<Label<E>>, id: Id) {
    ls != []
    && var rest, l := ls[..|ls| - 1], ls[|ls| - 1];
    if l == Subscribe(id) && Subscribe(id) !in rest then true
    else Subscribed(rest, id) && l != Unsubscribe(id)
  }

  /** The events published while the id was subscribed. */
  ghost function PublishedTo<E>(ls: seq<Label<E>>, id: Id): seq<E> {
    if ls == [] then []
    else
      var rest, l := ls[..|ls| - 1], ls[|ls| - 1];
      PublishedTo(rest, id) + if l.Publish? && Subscribed(rest, id) then [l.e] else []
  }

  lemma OneMorePublished<E>(ls: seq<Label<E>>, l: Label<E>, id: Id)
    ensures PublishedTo(ls + [l], id) == PublishedTo(ls, id) + if l.Publish? && Subscribed(ls, id) then [l.e] else []
    ensures Subscribed(ls + [l], id) <==>
      (l == Subscribe(id) && Subscribe(id) !in ls) || (Subscribed(ls, id) && l != Unsubscribe(id))
  {
    assert (ls + [l])[..|ls + [l]| - 1] == ls;
  }

  /** How one label changes what a subscriber was offered and whether it is subscribed. */
  lemma StepOffers<E>(s: State<E>, l: Label<E>, id: Id)
    ensures id in Step(s, l) <==> id in s || l == Subscribe(id)
    ensures var t, active := Step(s, l), id in s && s[id].active;
      id in t ==>
        && t[id].offered == (if id in s then s[id].offered else []) + (if l.Publish? && active then [l.e] else [])
        && (t[id].active <==> (l == Subscribe(id) && id !in s) || (active && l != Unsubscribe(id)))
  {
  }

  /** Nothing published to a subscriber is left out of its account, and nothing else is in it. */
  lemma {:induction false} OfferedIsWhatWasPublished<E>(ls: seq<Label<E>>, id: Id)
    ensures id in Run(ls) <==> Subscribe(id) in ls
    ensures Subscribed(ls, id) <==> id in Run(ls) && Run(ls)[id].active
    ensures PublishedTo(ls, id) == if id in Run(ls) then Run(ls)[id].offered else []
    decreases |ls|
  {
    if ls != [] {
      var rest, l := ls[..|ls| - 1], ls[|ls| - 1];
      OfferedIsWhatWasPublished(rest, id);
      hide Run, Step, PublishedTo, Subscribed;
      assert ls == rest + [l];
      OneMore(rest, l);
      OneMorePublished(rest, l, id);
      StepOffers(Run(rest), l, id);
    } else {
      assert Run(ls) == map[];
    }
  }

  /** The events that are received or queued are, in order, among those published while subscribed. */
  lemma ReceivedInOrder<E>(ls: seq<Label<E>>, id: Id)
    requires Subscribe(id) in ls
    ensures id in Run(ls) && |Run(ls)[id].kept| == |PublishedTo(ls, id)|
    ensures Run(ls)[id].received + Run(ls)[id].queue == Marked(PublishedTo(ls, id), Run(ls)[id].kept)
  {
    OfferedIsWhatWasPublished(ls, id);
    EverySubscriberIsFaithful(ls, id);
  }

  /** The labels that concern one subscriber: its own, and every publication. */
  function Concerning<E>(ls: seq<Label<E>>, id: Id): seq<Label<E>> {
    if ls == [] then []
    else
      var l := ls[|ls| - 1];
      Concerning(ls[..|ls| - 1], id) + if l.Publish? || l.id == id then [l] else []
  }

  predicate Agree<E(==)>(s: State<E>, t: State<E>, id: Id) {
    (id in s <==> id in t) && (id in s ==> s[id] == t[id])
  }

  lemma StepsAgree<E>(s: State<E>, t: State<E>, l: Label<E>, id: Id)
    requires Agree(s, t, id)
    ensures Agree(Step(s, l), if l.Publish? || l.id == id then Step(t, l) else t, id)
  {
  }

  /** What the others do changes nothing for a subscriber: not its queue, not what it receives, not what is dropped. */
  lemma {:induction false} OthersDoNotInterfere<E>(ls: seq<Label<E>>, id: Id)
    ensures Agree(Run(ls), Run(Concerning(ls, id)), id)
    decreases |ls|
  {
    if ls != [] {
      var rest, l := ls[..|ls| - 1], ls[|ls| - 1];
      OthersDoNotInterfere(rest, id);
      assert ls == rest + [l];
      assert Concerning(ls, id) == Concerning(rest, id) + if l.Publish? || l.id == id then [l] else [];
      hide Run, Step, Concerning, Agree;
      OneMore(rest, l);
      StepsAgree(Run(rest), Run(Concerning(rest, id)), l, id);
      if l.Publish? || l.id == id {
        OneMore(Concerning(rest, id), l);
      } else {
        assert Concerning(rest, id) + [] == Concerning(rest, id);
      }
    } else {
      assert Concerning(ls, id) == ls;
    }
  }

  /** What a subscriber has lost or kept so far is never revised. */
  lemma StepKeepsAccount<E>(s: State<E>, l: Label<E>, id: Id)
    requires id in s
    ensures id in Step(s, l) && s[id].kept <= Step(s, l)[id].kept
    ensures l.Publish? && s[id].active ==> Step(s, l)[id].kept == s[id].kept + [|s[id].queue| < CAPACITY]
  {
  }

  lemma AccountIsPublished<E>(ls: seq<Label<E>>, id: Id)
    requires id in Run(ls)
    ensures |Run(ls)[id].kept| == |PublishedTo(ls, id)| && |Run(ls)[id].queue| <= CAPACITY
    ensures Subscribed(ls, id) <==> Run(ls)[id].active
  {
    OfferedIsWhatWasPublished(ls, id);
    EverySubscriberIsFaithful(ls, id);
  }

  lemma AccountGrows<E>(ls: seq<Label<E>>, l: Label<E>, id: Id)
    requires id in Run(ls)
    ensures id in Run(ls + [l]) && Run(ls)[id].kept <= Run(ls + [l])[id].kept
    ensures PublishedTo(ls, id) <= PublishedTo(ls + [l], id)
    ensures |Run(ls + [l])[id].kept| == |PublishedTo(ls + [l], id)|
  {
    hide Run, PublishedTo, Subscribed, Step;
    OneMore(ls, l);
    OneMorePublished(ls, l, id);
    StepKeepsAccount(Run(ls), l, id);
    AccountIsPublished(ls + [l], id);
  }

  lemma MissingAtOnceIffFull<E>(before: seq<Label<E>>, e: E, id: Id)
    requires Subscribed(before, id)
    ensures var all, i := before + [Publish(e)], |PublishedTo(before, id)|;
      && id in Run(before) && id in Run(all)
      && i < |PublishedTo(all, id)| == |Run(all)[id].kept| && PublishedTo(all, id)[i] == e
      && (!Run(all)[id].kept[i] <==> |Run(before)[id].queue| == 32)
  {
    OfferedIsWhatWasPublished(before, id);
    AccountIsPublished(before, id);
    hide Run, PublishedTo, Subscribed, Step, Faithful;
    OneMore(before, Publish(e));
    OneMorePublished(before, Publish(e), id);
    StepKeepsAccount(Run(before), Publish(e), id);
  }

  /**
   An event published to a subscriber is missing from what it received and has queued, then
   and at any later time, exactly when 32 events were waiting undelivered as it was published.
   */
  lemma {:induction false} MissingIffFull<E>(before: seq<Label<E>>, e: E, after: seq<Label<E>>, id: Id)
    requires Subscribed(before, id)
    ensures var all, i := before + [Publish(e)] + after, |PublishedTo(before, id)|;
      && id in Run(before) && id in Run(all)
      && i < |PublishedTo(all, id)| == |Run(all)[id].kept| && PublishedTo(all, id)[i] == e
      && (!Run(all)[id].kept[i] <==> |Run(before)[id].queue| == 32)
    decreases |after|
  {
    hide Run, PublishedTo, Subscribed;
    if after == [] {
      MissingAtOnceIffFull(before, e, id);
      assert before + [Publish(e)] + [] == before + [Publish(e)];
    } else {
      var shorter, l := before + [Publish(e)] + after[..|after| - 1], after[|after| - 1];
      MissingIffFull(before, e, after[..|after| - 1], id);
      AccountGrows(shorter, l, id);
      assert before + [Publish(e)] + after == shorter + [l];
    }
  }

  // ---------------------------------------------------------------------------
  // The broadcaster as it is written: a map of channels, updated in place
  // ---------------------------------------------------------------------------

  class Channel<E> {
    var queue: seq<E>

    constructor ()
      ensures queue == []
    {
      queue := [];
    }
  }

  class EventBroadcaster<E> {
    var subs: map<string, Channel<E>>
    ghost var log: seq<Label<E>>

    /** Subscribers never share a channel, and each channel holds what the calls so far say. */
    ghost predicate Valid()
      reads this, subs.Values
    {
      && (forall a, b | a in subs && b in subs && a != b :: subs[a] != subs[b])
      && (forall a :: a in subs <==> a in Run(log) && Run(log)[a].active)
      && (forall a | a in subs :: subs[a].queue == Run(log)[a].queue)
    }

    constructor ()
      ensures Valid() && subs == map[] && log == []
    {
      subs, log := map[], [];
    }

    /** The id is fresh, as a random UUID is taken to be. */
    method Subscribe(id: string) returns (ch: Channel<E>)
      requires Valid() && id !in Run(log)
      modifies this
      ensures Valid() && log == old(log) + [Label.Subscribe(id)]
      ensures fresh(ch) && subs == old(subs)[id := ch]
    {
      ch := new Channel<E>();
      subs := subs[id := ch];
      OneMore(log, Label.Subscribe(id));
      log := log + [Label.Subscribe(id)];
    }

    method Unsubscribe(id: string)
      requires Valid()
      modifies this
      ensures Valid() && log == old(log) + [Label.Unsubscribe(id)]
      ensures subs == old(subs) - {id}
    {
      OneMore(log, Label.Unsubscribe(id));
      hide Run;
      subs := subs - {id};
      log := log + [Label.Unsubscribe(id)];
    }

    /** Whatever order the map is walked in, each channel is offered the event once. */
    method Publish(e: E)
      requires Valid()
      modifies this`log, subs.Values
      ensures Valid() && log == old(log) + [Label.Publish(e)]
      ensures forall a | a in subs :: subs[a].queue == Offer(old(subs[a].queue), e)
    {
      var pending := subs.Keys;
      while pending != {}
        invariant pending <= subs.Keys && log == old(log)
        invariant forall a | a in subs ::
          subs[a].queue == if a in pending then old(subs[a].queue) else Offer(old(subs[a].queue), e)
        decreases pending
      {
        var a :| a in pending;
        var ch := subs[a];
        assert ch in subs.Values;
        if |ch.queue| < CAPACITY {
          ch.queue := ch.queue + [e];
        }
        pending := pending - {a};
      }
      OneMore(log, Label.Publish(e));
      log := log + [Label.Publish(e)];
    }

    /** A subscriber takes the oldest event out of its channel. */
    method Receive(id: string) returns (e: E)
      requires Valid() && id in subs && subs[id].queue != []
      modifies this`log, subs.Values
      ensures Valid() && log == old(log) + [Label.Receive(id)]
      ensures e == old(subs[id].queue)[0] && subs[id].queue == old(subs[id].queue)[1..]
      ensures Run(log)[id].received == Run(old(log))[id].received + [e]
    {
      var ch := subs[id];
      assert ch in subs.Values;
      e := ch.queue[0];
      ch.queue := ch.queue[1..];
      OneMore(log, Label.Receive(id));
      log := log + [Label.Receive(id)];
    }

    /** The number of subscribers that have not unsubscribed. */
    method Count() returns (n: nat)
      requires Valid()
      ensures n == |set id | id in Run(log) && Run(log)[id].active|
    {
      n := |subs|;
      assert subs.Keys == set id | id in Run(log) && Run(log)[id].active;
    }
  }
}
