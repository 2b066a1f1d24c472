/** src/routes/ws/filter.rs: which events a connection has asked for. */
module SubscriptionFilter {
  import opened Prelude
  import opened Events

  datatype Filter = Filter(guild: Option<int>, session: Option<Uuid>) {
    predicate Accepts(e: Event) {
      match (guild, session)
      case (None, None) => true
      case (Some(g), None) => g == e.guild
      case (None, Some(sid)) => sid == e.session
      case (Some(g), Some(sid)) => g == e.guild && sid == e.session
    }
  }

  datatype Subscription = Subscription(event: string, filter: Filter)

  /** The two client frames that change the set. */
  datatype Change = Subscribe(names: seq<string>, filter: Filter) | Unsubscribe(names: seq<string>)

  function Apply(subs: set<Subscription>, c: Change): set<Subscription> {
    match c
    case Subscribe(names, filter) => subs + set n | n in names :: Subscription(n, filter)
    case Unsubscribe(names) => set s | s in subs && s.event !in names
  }

  function ApplyAll(changes: seq<Change>): set<Subscription> {
    if |changes| == 0 then {} else Apply(ApplyAll(changes[..|changes|-1]), changes[|changes|-1])
  }

  predicate MatchedBy(subs: set<Subscription>, e: Event) { MatchedByName(subs, e.Name(), e) }

  predicate MatchedByName(subs: set<Subscription>, name: string, e: Event) {
    exists s | s in subs :: s.event == name && s.filter.Accepts(e)
  }

  /**
   The protocol's promise in terms of frames alone: some subscribe frame named
   the event under a filter accepting it, and no later frame unsubscribed the name.
   */
  ghost predicate InForce(changes: seq<Change>, e: Event) { InForceName(changes, e.Name(), e) }

  ghost predicate InForceName(changes: seq<Change>, name: string, e: Event) {
    exists i :: SubscribedAt(changes, i, name, e)
  }

  ghost predicate SubscribedAt(changes: seq<Change>, i: int, name: string, e: Event) {
    && 0 <= i < |changes|
    && Covers(changes[i], name, e)
    && forall j :: i < j < |changes| ==> !Withdraws(changes[j], name)
  }

  /** A subscribe frame naming the event, whose filter equals the event's guild and session where it names them. */
  predicate Covers(c: Change, name: string, e: Event) {
    && c.Subscribe? && name in c.names
    && (c.filter.guild.Some? ==> c.filter.guild.value == e.guild)
    && (c.filter.session.Some? ==> c.filter.session.value == e.session)
  }

  predicate Withdraws(c: Change, name: string) { c.Unsubscribe? && name in c.names }

  lemma {:induction false} ApplyMatches(subs: set<Subscription>, c: Change, name: string, e: Event)
    ensures MatchedByName(Apply(subs, c), name, e) <==>
            Covers(c, name, e) || (MatchedByName(subs, name, e) && !Withdraws(c, name))
  {
    if Covers(c, name, e) {
      assert Subscription(name, c.filter) in Apply(subs, c);
    } else if MatchedByName(subs, name, e) && !Withdraws(c, name) {
      var s :| s in subs && s.event == name && s.filter.Accepts(e);
      assert s in Apply(subs, c);
    }
  }

  lemma {:induction false} InForceStep(changes: seq<Change>, name: string, e: Event)
    requires |changes| > 0
    ensures var init, last := changes[..|changes|-1], changes[|changes|-1];
      InForceName(changes, name, e) <==> Covers(last, name, e) || (InForceName(init, name, e) && !Withdraws(last, name))
  {
    var k := |changes| - 1;
    var init, last := changes[..k], changes[k];
    if Covers(last, name, e) {
      assert SubscribedAt(changes, k, name, e);
    }
    forall i | 0 <= i < k
      ensures SubscribedAt(changes, i, name, e) <==> SubscribedAt(init, i, name, e) && !Withdraws(last, name)
    {
      assert changes[i] == init[i] && forall j :: i < j < k ==> changes[j] == init[j];
    }
  }

  /** The set left by any history of frames matches exactly the events in force. */
  lemma {:induction false} SubscriptionHistory(changes: seq<Change>, e: Event)
    ensures MatchedBy(ApplyAll(changes), e) <==> InForce(changes, e)
  {
    SubscriptionHistoryName(changes, e.Name(), e);
  }

  lemma {:induction false} SubscriptionHistoryName(changes: seq<Change>, name: string, e: Event)
    ensures MatchedByName(ApplyAll(changes), name, e) <==> InForceName(changes, name, e)
  {
    if |changes| > 0 {
      var init, last := changes[..|changes|-1], changes[|changes|-1];
      SubscriptionHistoryName(init, name, e);
      ApplyMatches(ApplyAll(init), last, name, e);
      InForceStep(changes, name, e);
    }
  }

  class SubscriptionSet {
    var subs: set<Subscription>

    constructor ()
      ensures subs == ApplyAll([])
    {
      subs := {};
    }

    method Subscribe(names: seq<string>, filter: Filter)
      modifies this
      ensures subs == Apply(old(subs), Change.Subscribe(names, filter))
    {
      for i := 0 to |names|
        invariant subs == old(subs) + set n | n in names[..i] :: Subscription(n, filter)
      {
        assert names[..i+1] == names[..i] + [names[i]];
        subs := subs + {Subscription(names[i], filter)};
      }
      assert names[..|names|] == names;
    }

    method Unsubscribe(names: seq<string>)
      modifies this
      ensures subs == Apply(old(subs), Change.Unsubscribe(names))
    {
      subs := set s | s in subs && s.event !in names;
    }

    /** Scans the set until some subscription accepts the event. */
    method Matches(e: Event) returns (found: bool)
      ensures found <==> MatchedBy(subs, e)
    {
      var rest := subs;
      found := false;
      while rest != {} && !found
        invariant rest <= subs
        invariant found ==> MatchedBy(subs, e)
        invariant !found ==> !MatchedBy(subs - rest, e)
        decreases |rest|
      {
        var s :| s in rest;
        found := s.event == e.Name() && s.filter.Accepts(e);
        rest := rest - {s};
      }
      assert rest == {} ==> subs - rest == subs;
    }
  }
}
