/**
 Publishing offer by offer. A publication holds the mutex while it offers the event to the
 channels one after the other, in any order; subscribing and unsubscribing wait for the
 mutex, but a subscriber takes events out of its channel at any time, also between two
 offers of the same publication. Each subscriber still sees a run of `Broadcaster`.
 */
module BroadcastSteps {
  import opened Broadcaster
  import opened Sets

  datatype Mutex<E> = Free | Publishing(e: E, pending: set<Id>)

  datatype Fine<E> = Fine(subs: State<E>, mutex: Mutex<E>)

  datatype Action<E> = Lock(e: E) | OfferOne(id: Id, e: E) | Unlock | Join(id: Id) | Part(id: Id) | Take(id: Id)

  ghost predicate Enabled<E>(s: Fine<E>, a: Action<E>) {
    match a
    case Lock(_) => s.mutex.Free?
    case OfferOne(id, e) => s.mutex.Publishing? && s.mutex.e == e && id in s.mutex.pending && id in s.subs
    case Unlock => s.mutex.Publishing? && s.mutex.pending == {}
    case Join(id) => s.mutex.Free? && id !in s.subs
    case Part(_) => s.mutex.Free?
    case Take(_) => true
  }

  ghost function Next<E>(s: Fine<E>, a: Action<E>): Fine<E> {
    if !Enabled(s, a) then s
    else
      match a
      case Lock(e) => s.(mutex := Publishing(e, set id | id in s.subs && s.subs[id].active))
      case OfferOne(id, e) => Fine(s.subs[id := OfferTo(s.subs[id], e)], Publishing(e, s.mutex.pending - {id}))
      case Unlock => s.(mutex := Free)
      case Join(id) => s.(subs := Step(s.subs, Subscribe(id)))
      case Part(id) => s.(subs := Step(s.subs, Unsubscribe(id)))
      case Take(id) => s.(subs := Step(s.subs, Receive(id)))
  }

  ghost function After<E>(acts: seq<Action<E>>): Fine<E> {
    if acts == [] then Fine(map[], Free) else Next(After(acts[..|acts| - 1]), acts[|acts| - 1])
  }

  ghost predicate Happens<E>(acts: seq<Action<E>>) {
    acts == [] || (Happens(acts[..|acts| - 1]) && Enabled(After(acts[..|acts| - 1]), acts[|acts| - 1]))
  }

  /** What one subscriber sees of an action: an offer to it is a publication, offers to others are nothing. */
  function Seen<E>(a: Action<E>, id: Id): seq<Label<E>> {
    match a
    case OfferOne(j, e) => if j == id then [Publish(e)] else []
    case Join(j) => if j == id then [Subscribe(id)] else []
    case Part(j) => if j == id then [Unsubscribe(id)] else []
    case Take(j) => if j == id then [Receive(id)] else []
    case _ => []
  }

  function View<E>(acts: seq<Action<E>>, id: Id): seq<Label<E>> {
    if acts == [] then [] else View(acts[..|acts| - 1], id) + Seen(acts[|acts| - 1], id)
  }

  lemma OneStepSeen<E>(s: Fine<E>, a: Action<E>, id: Id, r: State<E>)
    requires Enabled(s, a) && (id in s.subs <==> id in r) && (id in r ==> s.subs[id] == r[id])
    ensures var t, q := Next(s, a).subs, if Seen(a, id) == [] then r else Step(r, Seen(a, id)[0]);
      (id in t <==> id in q) && (id in q ==> t[id] == q[id])
  {
  }

  /** A subscriber's channel and account are those of a run of whole publications: the one it sees. */
  lemma {:induction false} ViewIsARun<E>(acts: seq<Action<E>>, id: Id)
    requires Happens(acts)
    ensures id in After(acts).subs <==> id in Run(View(acts, id))
    ensures id in After(acts).subs ==> After(acts).subs[id] == Run(View(acts, id))[id]
    decreases |acts|
  {
    if acts != [] {
      var rest, a := acts[..|acts| - 1], acts[|acts| - 1];
      ViewIsARun(rest, id);
      assert View(acts, id) == View(rest, id) + Seen(a, id);
      assert After(acts) == Next(After(rest), a) && Enabled(After(rest), a);
      hide View, After, Happens, Run, Step, Next, Enabled;
      OneStepSeen(After(rest), a, id, Run(View(rest, id)));
      if Seen(a, id) == [] {
        assert View(rest, id) + [] == View(rest, id);
      } else {
        assert Seen(a, id) == [Seen(a, id)[0]];
        OneMore(View(rest, id), Seen(a, id)[0]);
      }
    }
  }

  /** The events whose publication began while the id was subscribed. */
  ghost function Sent<E>(acts: seq<Action<E>>, id: Id): seq<E> {
    if acts == [] then []
    else
      var rest, a := acts[..|acts| - 1], acts[|acts| - 1];
      Sent(rest, id) + if a.Lock? && Subscribed(View(rest, id), id) then [a.e] else []
  }

  /** The event now being published, while the id still waits for its offer. */
  ghost function Awaited<E>(s: Fine<E>, id: Id): seq<E> {
    if s.mutex.Publishing? && id in s.mutex.pending then [s.mutex.e] else []
  }

  /** A publication makes every active subscriber wait; nobody was waiting. */
  lemma LockAwaits<E>(s: Fine<E>, e: E, id: Id)
    requires Enabled(s, Lock(e))
    ensures Awaited(s, id) == []
    ensures Awaited(Next(s, Lock(e)), id) == if id in s.subs && s.subs[id].active then [e] else []
  {
  }

  /** An offer ends its subscriber's wait for that event. */
  lemma OfferAwaits<E>(s: Fine<E>, e: E, id: Id)
    requires Enabled(s, OfferOne(id, e))
    ensures Awaited(s, id) == [e] && Awaited(Next(s, OfferOne(id, e)), id) == []
  {
  }

  /** No other action changes what a subscriber waits for, and nobody waits while one parts. */
  lemma OtherAwaits<E>(s: Fine<E>, a: Action<E>, id: Id)
    requires Enabled(s, a) && !a.Lock? && !(a.OfferOne? && a.id == id)
    ensures Awaited(Next(s, a), id) == Awaited(s, id)
    ensures a.Part? ==> Awaited(s, id) == []
  {
  }

  /** What was sent was offered, or its offer is still to come. */
  ghost predicate Accounted<E>(acts: seq<Action<E>>, id: Id) {
    && Sent(acts, id) == PublishedTo(View(acts, id), id) + Awaited(After(acts), id)
    && (Awaited(After(acts), id) != [] ==> Subscribed(View(acts, id), id))
  }

  lemma OneMoreAction<E>(acts: seq<Action<E>>, a: Action<E>, id: Id)
    ensures View(acts + [a], id) == View(acts, id) + Seen(a, id)
    ensures After(acts + [a]) == Next(After(acts), a)
    ensures Happens(acts + [a]) <==> Happens(acts) && Enabled(After(acts), a)
    ensures Sent(acts + [a], id) == Sent(acts, id) + if a.Lock? && Subscribed(View(acts, id), id) then [a.e] else []
  {
    assert (acts + [a])[..|acts + [a]| - 1] == acts;
  }

  /** A publication begins: whoever is subscribed waits for its offer. */
  lemma LockIsAccounted<E>(acts: seq<Action<E>>, e: E, id: Id)
    requires Happens(acts + [Lock(e)]) && Accounted(acts, id)
    ensures Accounted(acts + [Lock(e)], id)
  {
    hide View, After, Happens, Run, Next, Enabled, Sent, Awaited, PublishedTo, Subscribed;
    OneMoreAction(acts, Lock(e), id);
    ViewIsARun(acts, id);
    OfferedIsWhatWasPublished(View(acts, id), id);
    LockAwaits(After(acts), e, id);
    assert View(acts, id) + [] == View(acts, id);
  }

  /** The subscriber's own offer. */
  lemma OfferIsAccounted<E>(acts: seq<Action<E>>, e: E, id: Id)
    requires Happens(acts + [OfferOne(id, e)]) && Accounted(acts, id)
    ensures Accounted(acts + [OfferOne(id, e)], id)
  {
    hide View, After, Happens, Next, Enabled, Sent, Awaited, PublishedTo, Subscribed;
    OneMoreAction(acts, OfferOne(id, e), id);
    OfferAwaits(After(acts), e, id);
    OneMorePublished(View(acts, id), Publish(e), id);
  }

  /** The subscriber joins, parts or receives: nothing is sent. */
  lemma OwnActionIsAccounted<E>(acts: seq<Action<E>>, a: Action<E>, l: Label<E>, id: Id)
    requires Happens(acts + [a]) && Accounted(acts, id) && !a.Lock? && !a.OfferOne?
    requires Seen(a, id) == [l] && !l.Publish? && (l == Unsubscribe(id) ==> a.Part?)
    ensures Accounted(acts + [a], id)
  {
    hide View, After, Happens, Next, Enabled, Sent, Awaited, PublishedTo, Subscribed, Seen;
    OneMoreAction(acts, a, id);
    OtherAwaits(After(acts), a, id);
    OneMorePublished(View(acts, id), l, id);
  }

  /** Nothing the subscriber sees. */
  lemma UnseenIsAccounted<E>(acts: seq<Action<E>>, a: Action<E>, id: Id)
    requires Happens(acts + [a]) && Accounted(acts, id) && Seen(a, id) == [] && !a.Lock?
    ensures Accounted(acts + [a], id)
  {
    hide View, After, Happens, Next, Enabled, Sent, Awaited, PublishedTo, Subscribed;
    OneMoreAction(acts, a, id);
    OtherAwaits(After(acts), a, id);
    assert View(acts, id) + [] == View(acts, id);
  }

  lemma ActionIsAccounted<E>(acts: seq<Action<E>>, a: Action<E>, id: Id)
    requires Happens(acts + [a]) && Accounted(acts, id)
    ensures Accounted(acts + [a], id)
  {
    hide Happens, Accounted;
    match a
    case Lock(e) => LockIsAccounted(acts, e, id);
    case OfferOne(j, e) =>
      if j == id {
        OfferIsAccounted(acts, e, id);
      } else {
        UnseenIsAccounted(acts, a, id);
      }
    case Unlock => UnseenIsAccounted(acts, a, id);
    case Join(j) =>
      if j == id {
        OwnActionIsAccounted(acts, a, Subscribe(id), id);
      } else {
        UnseenIsAccounted(acts, a, id);
      }
    case Part(j) =>
      if j == id {
        OwnActionIsAccounted(acts, a, Unsubscribe(id), id);
      } else {
        UnseenIsAccounted(acts, a, id);
      }
    case Take(j) =>
      if j == id {
        OwnActionIsAccounted(acts, a, Receive(id), id);
      } else {
        UnseenIsAccounted(acts, a, id);
      }
  }

  /** Every publication reaches each channel once. */
  lemma {:induction false} SentIsOffered<E>(acts: seq<Action<E>>, id: Id)
    requires Happens(acts)
    ensures Accounted(acts, id)
    decreases |acts|
  {
    if acts != [] {
      var rest, a := acts[..|acts| - 1], acts[|acts| - 1];
      assert Happens(rest) && acts == rest + [a];
      hide Happens, Accounted;
      SentIsOffered(rest, id);
      ActionIsAccounted(rest, a, id);
    }
  }

  lemma {:induction false} JoinIsSeen<E>(acts: seq<Action<E>>, id: Id)
    requires Join(id) in acts
    ensures Subscribe(id) in View(acts, id)
    decreases |acts|
  {
    var rest, a := acts[..|acts| - 1], acts[|acts| - 1];
    assert acts == rest + [a];
    if a != Join(id) {
      JoinIsSeen(rest, id);
    }
  }

  /**
   However receives fall between offers, and in whatever order the channels are served, once a
   subscriber has had its offer of every publication its received and then queued events are
   an in-order selection of all events published while it was subscribed.
   */
  lemma OffersMayInterleave<E>(acts: seq<Action<E>>, id: Id)
    requires Happens(acts) && Join(id) in acts && Awaited(After(acts), id) == []
    ensures id in After(acts).subs && |After(acts).subs[id].kept| == |Sent(acts, id)|
    ensures var s := After(acts).subs[id]; s.received + s.queue == Marked(Sent(acts, id), s.kept)
  {
    hide View, After, Happens, Run, Awaited, Sent, PublishedTo, Marked;
    SentIsOffered(acts, id);
    ViewIsARun(acts, id);
    JoinIsSeen(acts, id);
    ReceivedInOrder(View(acts, id), id);
    assert Sent(acts, id) == PublishedTo(View(acts, id), id);
  }

  /** What is seen of later actions comes after what is seen of earlier ones. */
  lemma {:induction false} ViewConcat<E>(a: seq<Action<E>>, b: seq<Action<E>>, id: Id)
    ensures View(a + b, id) == View(a, id) + View(b, id)
    decreases |b|
  {
    hide Seen;
    if b == [] {
      assert a + b == a;
    } else {
      var rest, seen := b[..|b| - 1], Seen(b[|b| - 1], id);
      assert (a + b)[..|a + b| - 1] == a + rest;
      ViewConcat(a, rest, id);
      assert View(a + b, id) == View(a + rest, id) + seen && View(b, id) == View(rest, id) + seen;
      hide View;
      assert View(a, id) + View(rest, id) + seen == View(a, id) + (View(rest, id) + seen);
    }
  }

  lemma {:induction false} HappensBefore<E>(a: seq<Action<E>>, b: seq<Action<E>>)
    requires Happens(a + b)
    ensures Happens(a)
    decreases |b|
  {
    if b == [] {
      assert a + b == a;
    } else {
      assert (a + b)[..|a + b| - 1] == a + b[..|b| - 1];
      HappensBefore(a, b[..|b| - 1]);
    }
  }

  lemma OfferedToTheSubscribed<E>(before: seq<Action<E>>, id: Id, e: E)
    requires Happens(before + [OfferOne(id, e)])
    ensures Happens(before) && Subscribed(View(before, id), id)
  {
    assert (before + [OfferOne(id, e)])[..|before|] == before;
    SentIsOffered(before, id);
  }

  /** An event is lost to a subscriber, for good, exactly when its channel held 32 as the offer to it was made. */
  lemma LostIffFullAtItsOffer<E>(before: seq<Action<E>>, id: Id, e: E, after: seq<Action<E>>)
    requires Happens(before + [OfferOne(id, e)] + after)
    ensures id in After(before).subs && id in After(before + [OfferOne(id, e)] + after).subs
    ensures var all, i := before + [OfferOne(id, e)] + after, |PublishedTo(View(before, id), id)|;
      var s := After(all).subs[id];
      && i < |PublishedTo(View(all, id), id)| == |s.kept| && PublishedTo(View(all, id), id)[i] == e
      && (!s.kept[i] <==> |After(before).subs[id].queue| == 32)
  {
    var all := before + [OfferOne(id, e)] + after;
    HappensBefore(before + [OfferOne(id, e)], after);
    OfferedToTheSubscribed(before, id, e);
    assert View([OfferOne(id, e)], id) == [Publish(e)];
    hide View, After, Happens, Run, Awaited, PublishedTo, Subscribed;
    ViewConcat(before + [OfferOne(id, e)], after, id);
    ViewConcat(before, [OfferOne(id, e)], id);
    ViewIsARun(before, id);
    ViewIsARun(all, id);
    MissingIffFull(View(before, id), e, View(after, id), id);
  }

  // ---------------------------------------------------------------------------
  // Whole publications are among the runs
  // ---------------------------------------------------------------------------

  lemma OneMoreHappens<E>(acts: seq<Action<E>>, a: Action<E>)
    requires Happens(acts) && Enabled(After(acts), a)
    ensures Happens(acts + [a]) && After(acts + [a]) == Next(After(acts), a)
  {
    assert (acts + [a])[..|acts + [a]| - 1] == acts;
  }

  /** A publication under way can make the offers that are left. */
  lemma {:induction false} OffersAreMade<E>(acts: seq<Action<E>>, e: E, pending: set<Id>) returns (all: seq<Action<E>>)
    requires Happens(acts) && After(acts).mutex == Publishing(e, pending) && pending <= After(acts).subs.Keys
    ensures Happens(all) && After(all).mutex == Publishing(e, {})
    ensures After(all).subs == map id | id in After(acts).subs ::
      if id in pending then OfferTo(After(acts).subs[id], e) else After(acts).subs[id]
    decreases |pending|
  {
    if |pending| == 0 {
      all := acts;
    } else {
      hide After, Happens, OfferTo;
      var id := Pick(pending);
      var s := After(acts);
      OneMoreHappens(acts, OfferOne(id, e));
      all := OffersAreMade(acts + [OfferOne(id, e)], e, pending - {id});
    }
  }

  lemma PublicationIsMade<E>(acts: seq<Action<E>>, e: E) returns (all: seq<Action<E>>)
    requires Happens(acts) && After(acts).mutex == Free
    ensures Happens(all) && After(all) == Fine(Step(After(acts).subs, Publish(e)), Free)
  {
    hide After, Happens;
    var s := After(acts);
    OneMoreHappens(acts, Lock(e));
    var offered := OffersAreMade(acts + [Lock(e)], e, set id | id in s.subs && s.subs[id].active);
    OneMoreHappens(offered, Unlock);
    all := offered + [Unlock];
    assert After(offered).subs == Step(s.subs, Publish(e));
  }

  /** Nothing is ruled out: every run of whole publications is also one of separate offers. */
  lemma {:induction false} RunsAreSteps<E>(ls: seq<Label<E>>) returns (acts: seq<Action<E>>)
    ensures Happens(acts) && After(acts) == Fine(Run(ls), Free)
    decreases |ls|
  {
    acts := [];
    if ls != [] {
      acts := RunsAreSteps(ls[..|ls| - 1]);
      var s := After(acts);
      hide After, Happens;
      match ls[|ls| - 1]
      case Publish(e) =>
        acts := PublicationIsMade(acts, e);
      case Subscribe(id) =>
        if id !in s.subs {
          OneMoreHappens(acts, Join(id));
          acts := acts + [Join(id)];
        }
      case Unsubscribe(id) =>
        OneMoreHappens(acts, Part(id));
        acts := acts + [Part(id)];
      case Receive(id) =>
        OneMoreHappens(acts, Take(id));
        acts := acts + [Take(id)];
    }
  }
}
