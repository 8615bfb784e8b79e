/**
  The publish/subscribe service of ext/pubsub: subscriptions in a trie of subjects, with one map
  per kind of subscription from each subscriber back to its subjects. The trie is the map from
  the paths of its nodes that carry a value to these values; a node in hand is its path.
*/
module PubSub {
  import opened Bytes

  type EntityID = nat

  const STAR: int := 42

  /** A subscription: a wildcard one is for all subjects that start with the stem. */
  datatype Subscription = Subscription(subscriber: EntityID, stem: Str, wildcard: bool)

  predicate Matches(x: Subscription, subject: Str)
  {
    if x.wildcard then x.stem <= subject else x.stem == subject
  }

  datatype Subscribing = Subscribing(subscribers: set<EntityID>, wildcardSubscribers: set<EntityID>)

  type Tree = map<Str, Subscribing>
  type Subjects = map<EntityID, set<Str>>
  type Attr = map<Str, set<EntityID>>

  function At(tree: Tree, stem: Str, wildcard: bool): set<EntityID>
  {
    if stem !in tree then {} else if wildcard then tree[stem].wildcardSubscribers else tree[stem].subscribers
  }

  ghost function Subscriptions(tree: Tree): (r: set<Subscription>)
    ensures forall x :: x in r <==> x.subscriber in At(tree, x.stem, x.wildcard)
  {
    (set s, e | s in tree && e in tree[s].subscribers :: Subscription(e, s, false))
    + (set s, e | s in tree && e in tree[s].wildcardSubscribers :: Subscription(e, s, true))
  }

  function Of(subjects: Subjects, e: EntityID): set<Str>
  {
    if e in subjects then subjects[e] else {}
  }

  /** The trie and the maps back from subscribers to subjects say the same. */
  ghost predicate Inverse(tree: Tree, plain: Subjects, wild: Subjects)
  {
    forall x: Subscription ::
      x in Subscriptions(tree) <==> x.stem in Of(if x.wildcard then wild else plain, x.subscriber)
  }

  // ---------- Freezing ----------

  /** The subscriptions that two attributes stand for. */
  ghost function Stored(plain: Attr, wild: Attr): (r: set<Subscription>)
    ensures forall x ::
              x in r <==> var a := if x.wildcard then wild else plain; x.stem in a && x.subscriber in a[x.stem]
  {
    (set s, e | s in plain && e in plain[s] :: Subscription(e, s, false))
    + (set s, e | s in wild && e in wild[s] :: Subscription(e, s, true))
  }

  /** An attribute with the subjects in `done` written over. */
  function Overwritten(attr: Attr, tree: Tree, wildcard: bool, done: set<Str>): Attr
  {
    attr + map s | s in done :: At(tree, s, wildcard)
  }

  lemma OverwriteOne(attr: Attr, tree: Tree, wildcard: bool, done: set<Str>, s: Str)
    ensures Overwritten(attr, tree, wildcard, done)[s := At(tree, s, wildcard)] == Overwritten(attr, tree, wildcard, done + {s})
    ensures s in tree ==> At(tree, s, wildcard) == if wildcard then tree[s].wildcardSubscribers else tree[s].subscribers
  {
  }

  lemma OverwriteNone(attr: Attr, tree: Tree, wildcard: bool)
    ensures Overwritten(attr, tree, wildcard, {}) == attr
  {
  }

  /** What freezing leaves in an attribute: each subject of the trie is written over. */
  function Frozen(attr: Attr, tree: Tree, wildcard: bool): Attr
  {
    Overwritten(attr, tree, wildcard, tree.Keys)
  }

  /** No subscriber is left in an attribute under a subject that the trie does not know. */
  ghost predicate Covered(plain: Attr, wild: Attr, tree: Tree)
  {
    forall x | x in Stored(plain, wild) :: x.stem in tree
  }

  lemma SameCovered(plain: Attr, wild: Attr, tree: Tree)
    requires Stored(plain, wild) == Subscriptions(tree)
    ensures Covered(plain, wild, tree)
  {
  }

  /**
    A restored service has the subscriptions of the frozen one exactly when nothing is left over
    from earlier in the attributes under a subject that the trie does not know.
  */
  lemma FreezeRestore(plain: Attr, wild: Attr, tree: Tree)
    ensures Stored(Frozen(plain, tree, false), Frozen(wild, tree, true)) == Subscriptions(tree)
       <==> Covered(plain, wild, tree)
  {
  }

  // ---------- The relation, without the data structure ----------

  datatype Op =
    | Subscribe(subscriber: EntityID, subject: Str)
    | Unsubscribe(subscriber: EntityID, subject: Str)
    | UnsubscribeAll(subscriber: EntityID)
    | Reload

  /** A star may stand at the end of a subject only. */
  predicate WellFormed(subject: Str)
  {
    forall i | 0 <= i < |subject| - 1 :: subject[i] != STAR
  }

  /** What a well-formed subject asks for. */
  function Parsed(subscriber: EntityID, subject: Str): Subscription
  {
    if subject != [] && subject[|subject| - 1] == STAR then
      Subscription(subscriber, subject[..|subject| - 1], true)
    else
      Subscription(subscriber, subject, false)
  }

  /** The relation after an operation; an ill-formed subject makes the service refuse it. */
  ghost function After(r: set<Subscription>, op: Op): set<Subscription>
  {
    match op
    case Subscribe(e, subject) => if WellFormed(subject) then r + {Parsed(e, subject)} else r
    case Unsubscribe(e, subject) => if WellFormed(subject) then r - {Parsed(e, subject)} else r
    case UnsubscribeAll(e) => set x | x in r && x.subscriber != e
    case Reload => r
  }

  ghost function Replay(ops: seq<Op>): set<Subscription>
  {
    if |ops| == 0 then {} else After(Replay(ops[..|ops| - 1]), ops[|ops| - 1])
  }

  predicate Asks(op: Op, x: Subscription)
  {
    op.Subscribe? && WellFormed(op.subject) && Parsed(op.subscriber, op.subject) == x
  }

  predicate Ends(op: Op, x: Subscription)
  {
    (op.Unsubscribe? && WellFormed(op.subject) && Parsed(op.subscriber, op.subject) == x)
    || (op.UnsubscribeAll? && op.subscriber == x.subscriber)
  }

  /** The subscription was asked for by one of the operations, and not ended since. */
  ghost predicate Holds(ops: seq<Op>, x: Subscription)
  {
    exists i :: 0 <= i < |ops| && Asks(ops[i], x) && NotEnded(ops, i, x)
  }

  ghost predicate NotEnded(ops: seq<Op>, i: int, x: Subscription)
  {
    forall j | 0 <= j < |ops| && i < j :: !Ends(ops[j], x)
  }

  lemma HoldsMore(ops: seq<Op>, op: Op, x: Subscription)
    ensures Holds(ops + [op], x) <==> Asks(op, x) || (Holds(ops, x) && !Ends(op, x))
  {
    hide Asks, Ends;
    var n, more := |ops|, ops + [op];
    if Asks(op, x) {
      assert Asks(more[n], x) && NotEnded(more, n, x);
    }
    if Holds(ops, x) && !Ends(op, x) {
      var i :| 0 <= i < n && Asks(ops[i], x) && NotEnded(ops, i, x);
      assert Asks(more[i], x) && NotEnded(more, i, x);
    }
    if Holds(more, x) && !Asks(op, x) {
      var i :| 0 <= i < |more| && Asks(more[i], x) && NotEnded(more, i, x);
      assert i < n && !Ends(more[n], x);
      forall j | 0 <= j < n && i < j
        ensures !Ends(ops[j], x)
      {
        assert more[j] == ops[j];
      }
      assert Asks(ops[i], x) && NotEnded(ops, i, x);
    }
  }

  lemma AfterExactly(r: set<Subscription>, op: Op, x: Subscription)
    ensures x in After(r, op) <==> Asks(op, x) || (x in r && !Ends(op, x))
  {
  }

  /** The subscriptions there are: those asked for and not ended since. */
  lemma {:induction false} ReplayExactly(ops: seq<Op>, x: Subscription)
    ensures x in Replay(ops) <==> Holds(ops, x)
  {
    hide Asks, Ends, After;
    if |ops| > 0 {
      var n := |ops| - 1;
      ReplayExactly(ops[..n], x);
      AfterExactly(Replay(ops[..n]), ops[n], x);
      HoldsMore(ops[..n], ops[n], x);
      assert ops == ops[..n] + [ops[n]];
    }
  }

  /** A subject with a star at its end reaches what starts with its stem, another one itself only. */
  lemma ParsedMatches(e: EntityID, subject: Str, published: Str)
    requires WellFormed(subject) && STAR !in published
    ensures Matches(Parsed(e, subject), published) <==>
            subject == published ||
            (|subject| > 0 && subject[|subject| - 1] == STAR && subject[..|subject| - 1] <= published)
  {
  }

  /** Two well-formed subjects ask for the same only when they are the same. */
  lemma ParsedInjective(e: EntityID, s: Str, t: Str)
    requires Parsed(e, s) == Parsed(e, t)
    ensures s == t
  {
    if Parsed(e, s).wildcard {
      assert s == Parsed(e, s).stem + [STAR] && t == Parsed(e, t).stem + [STAR];
    }
  }

  // ---------- The service ----------

  datatype Call = Call(eid: EntityID, subject: Str, content: Str)

  lemma TreeAdd(tree: Tree, x: Subscription)
    ensures
      var old' := if x.stem in tree then tree[x.stem] else Subscribing({}, {});
      var new' := if x.wildcard then old'.(wildcardSubscribers := old'.wildcardSubscribers + {x.subscriber})
                  else old'.(subscribers := old'.subscribers + {x.subscriber});
      Subscriptions(tree[x.stem := new']) == Subscriptions(tree) + {x}
  {
  }

  lemma TreeRemove(tree: Tree, x: Subscription)
    requires x.stem in tree
    ensures
      var old' := tree[x.stem];
      var new' := if x.wildcard then old'.(wildcardSubscribers := old'.wildcardSubscribers - {x.subscriber})
                  else old'.(subscribers := old'.subscribers - {x.subscriber});
      Subscriptions(tree[x.stem := new']) == Subscriptions(tree) - {x}
  {
  }

  /** What the walk reaches from one node on: what hangs there, and what it reaches further down. */
  ghost predicate Reached(tree: Tree, subject: Str, idx: nat, via: seq<Subscription>)
  {
    forall x :: x in via <==> x in Subscriptions(tree) && Matches(x, subject) && |x.stem| >= idx
  }

  lemma WalkStep(tree: Tree, subject: Str, idx: nat, via: seq<Subscription>, rest: seq<Subscription>)
    requires idx <= |subject| && Distinct(via) && Distinct(rest)
    requires forall x :: x in via <==> x.subscriber in At(tree, subject[..idx], true) && x.stem == subject[..idx] && x.wildcard
    requires idx < |subject| ==> Reached(tree, subject, idx + 1, rest)
    requires idx == |subject| ==>
               forall x :: x in rest <==> x.subscriber in At(tree, subject, false) && x.stem == subject && !x.wildcard
    ensures Distinct(via + rest) && Reached(tree, subject, idx, via + rest)
  {
    forall x: Subscription
      ensures x in via + rest <==> x in Subscriptions(tree) && Matches(x, subject) && |x.stem| >= idx
      ensures x in via ==> x !in rest
    {
      if Matches(x, subject) {
        assert x.stem == subject[..|x.stem|];
      }
      assert subject[..|subject|] == subject;
    }
    DistinctMore(via, rest);
  }

  class PublishSubscribeService {
    var tree: Tree
    var avatarSubscribings: Subjects
    var avatarWildcardSubscribings: Subjects
    var subscribersAttr: Attr
    var wildcardSubscribersAttr: Attr
    /** The calls made to entities, oldest first. */
    var calls: seq<Call>

    ghost function Relation(): set<Subscription>
      reads this`tree
    {
      Subscriptions(tree)
    }

    ghost predicate Consistent()
      reads this
    {
      Inverse(tree, avatarSubscribings, avatarWildcardSubscribings)
    }

    ghost predicate Valid()
      reads this
    {
      Consistent() && Covered(subscribersAttr, wildcardSubscribersAttr, tree)
    }

    /** OnInit and OnCreated, with the attributes that the entity was created from. */
    constructor (plain: Attr, wild: Attr)
      ensures Consistent() && Relation() == {} && calls == []
      ensures subscribersAttr == plain && wildcardSubscribersAttr == wild
      ensures plain == wild == map[] ==> Valid()
    {
      tree, calls := map[], [];
      avatarSubscribings, avatarWildcardSubscribings := map[], map[];
      subscribersAttr, wildcardSubscribersAttr := plain, wild;
    }

    /** The calls for one set of subscribers at the node of `stem`. */
    method CallAll(eids: set<EntityID>, stem: Str, wildcard: bool, subject: Str, content: Str)
      returns (ghost via: seq<Subscription>)
      modifies this`calls
      ensures calls == old(calls) + CallsFor(via, subject, content)
      ensures Distinct(via)
      ensures forall x :: x in via <==> x.subscriber in eids && x.stem == stem && x.wildcard == wildcard
    {
      via := [];
      var left := eids;
      assert calls == old(calls) + CallsFor(via, subject, content);
      while left != {}
        invariant left <= eids
        invariant calls == old(calls) + CallsFor(via, subject, content)
        invariant Distinct(via)
        invariant forall x :: x in via <==> x.subscriber in eids - left && x.stem == stem && x.wildcard == wildcard
        decreases left
      {
        var eid :| eid in left;
        left := left - {eid};
        ghost var x := Subscription(eid, stem, wildcard);
        DistinctMore(via, [x]);
        CallsForAppend(via, [x], subject, content);
        calls := calls + [Call(eid, subject, content)];
        via := via + [x];
      }
    }

    /** The walk from the node at `subject[..idx]`, which calls for the subscriptions from there on. */
    method PublishInTree(subject: Str, content: Str, idx: nat) returns (ghost via: seq<Subscription>)
      requires idx <= |subject|
      modifies this`calls
      ensures calls == old(calls) + CallsFor(via, subject, content)
      ensures Distinct(via) && Reached(tree, subject, idx, via)
      decreases |subject| - idx
    {
      hide Subscriptions, Reached, Distinct, At, CallsFor;
      ghost var before := calls;
      var node := subject[..idx];
      via := CallAll(At(tree, node, true), node, true, subject, content);
      ghost var rest: seq<Subscription>;
      ghost var first := CallsFor(via, subject, content);
      if idx < |subject| {
        rest := PublishInTree(subject, content, idx + 1);
      } else {
        assert node == subject;
        rest := CallAll(At(tree, node, false), node, false, subject, content);
      }
      CallsForAppend(via, rest, subject, content);
      assert (before + first) + CallsFor(rest, subject, content) == before + (first + CallsFor(rest, subject, content));
      WalkStep(tree, subject, idx, via, rest);
      via := via + rest;
    }

    /**
      Publish: one call to each subscriber for each of its subscriptions that match, and no other;
      `via` names the subscription behind each call. A subject with a star is refused.
    */
    method Publish(subject: Str, content: Str) returns (ok: bool, ghost via: seq<Subscription>)
      modifies this`calls
      ensures ok <==> STAR !in subject
      ensures !ok ==> calls == old(calls)
      ensures ok ==> calls == old(calls) + CallsFor(via, subject, content)
      ensures ok ==> Distinct(via) && forall x :: x in via <==> x in Relation() && Matches(x, subject)
    {
      hide Subscriptions, Distinct, CallsFor;
      via := [];
      var i := 0;
      while i < |subject|
        invariant i <= |subject| && forall k | 0 <= k < i :: subject[k] != STAR
      {
        if subject[i] == STAR {
          return false, [];
        }
        i := i + 1;
      }
      via := PublishInTree(subject, content, 0);
      ok := true;
    }

    /** The check of a subject and its split into stem and kind. */
    static method Parse(subject: Str) returns (ok: bool, stem: Str, wildcard: bool)
      ensures ok <==> WellFormed(subject)
      ensures ok ==> forall e: EntityID :: Subscription(e, stem, wildcard) == Parsed(e, subject)
    {
      var i := 0;
      while i < |subject|
        invariant i <= |subject| && forall k | 0 <= k < i && k != |subject| - 1 :: subject[k] != STAR
      {
        if subject[i] == STAR && i != |subject| - 1 {
          return false, [], false;
        }
        i := i + 1;
      }
      ok, stem, wildcard := true, subject, false;
      if |subject| > 0 && subject[|subject| - 1] == STAR {
        wildcard := true;
        stem := subject[..|subject| - 1];
      }
    }

    method Subscribe(subscriber: EntityID, subject: Str) returns (ok: bool)
      requires Valid()
      modifies this`tree, this`avatarSubscribings, this`avatarWildcardSubscribings
      ensures Valid() && Relation() == After(old(Relation()), Op.Subscribe(subscriber, subject))
      ensures ok <==> WellFormed(subject)
    {
      var stem, wildcard;
      ok, stem, wildcard := Parse(subject);
      if ok {
        SubscribeStem(subscriber, stem, wildcard);
      }
    }

    method SubscribeStem(subscriber: EntityID, stem: Str, wildcard: bool)
      requires Consistent()
      modifies this`tree, this`avatarSubscribings, this`avatarWildcardSubscribings
      ensures Consistent() && Relation() == old(Relation()) + {Subscription(subscriber, stem, wildcard)}
      ensures tree.Keys == old(tree.Keys) + {stem}
    {
      ghost var x := Subscription(subscriber, stem, wildcard);
      TreeAdd(tree, x);
      hide Subscriptions;
      var subs := if stem in tree then tree[stem] else Subscribing({}, {});
      if !wildcard {
        tree := tree[stem := subs.(subscribers := subs.subscribers + {subscriber})];
        avatarSubscribings := avatarSubscribings[subscriber := Of(avatarSubscribings, subscriber) + {stem}];
      } else {
        tree := tree[stem := subs.(wildcardSubscribers := subs.wildcardSubscribers + {subscriber})];
        avatarWildcardSubscribings :=
          avatarWildcardSubscribings[subscriber := Of(avatarWildcardSubscribings, subscriber) + {stem}];
      }
    }

    method Unsubscribe(subscriber: EntityID, subject: Str) returns (ok: bool)
      requires Valid()
      modifies this`tree, this`avatarSubscribings, this`avatarWildcardSubscribings
      ensures Valid() && Relation() == After(old(Relation()), Op.Unsubscribe(subscriber, subject))
      ensures ok <==> WellFormed(subject)
    {
      var stem, wildcard;
      ok, stem, wildcard := Parse(subject);
      if ok {
        UnsubscribeStem(subscriber, stem, wildcard);
        assert Consistent();
      }
    }

    /** The subscription goes from the trie and, when its subscriber has an entry, from there. */
    method UnsubscribeStem(subscriber: EntityID, stem: Str, wildcard: bool)
      modifies this`tree, this`avatarSubscribings, this`avatarWildcardSubscribings
      ensures Relation() == old(Relation()) - {Subscription(subscriber, stem, wildcard)}
      ensures tree.Keys == old(tree.Keys)
      ensures forall e, s: Str :: s in Of(avatarSubscribings, e) <==>
                s in Of(old(avatarSubscribings), e) && !(old(stem in tree) && !wildcard && e == subscriber && s == stem)
      ensures forall e, s: Str :: s in Of(avatarWildcardSubscribings, e) <==>
                s in Of(old(avatarWildcardSubscribings), e) &&
                !(old(stem in tree) && wildcard && e == subscriber && s == stem)
    {
      ghost var x := Subscription(subscriber, stem, wildcard);
      if stem !in tree {
        assert x !in Subscriptions(tree);
        return;
      }
      TreeRemove(tree, x);
      hide Subscriptions;
      var subs := tree[stem];
      if !wildcard {
        tree := tree[stem := subs.(subscribers := subs.subscribers - {subscriber})];
        if subscriber in avatarSubscribings {
          avatarSubscribings := avatarSubscribings[subscriber := avatarSubscribings[subscriber] - {stem}];
        }
      } else {
        tree := tree[stem := subs.(wildcardSubscribers := subs.wildcardSubscribers - {subscriber})];
        if subscriber in avatarWildcardSubscribings {
          avatarWildcardSubscribings :=
            avatarWildcardSubscribings[subscriber := avatarWildcardSubscribings[subscriber] - {stem}];
        }
      }
    }

    /** The loop of UnsubscribeAll over the subjects of one kind. */
    method UnsubscribeEach(subscriber: EntityID, subjects: set<Str>, wildcard: bool)
      requires subscriber !in (if wildcard then avatarWildcardSubscribings else avatarSubscribings)
      modifies this`tree, this`avatarSubscribings, this`avatarWildcardSubscribings
      ensures forall x :: x in Relation() <==>
                x in old(Relation()) && !(x.subscriber == subscriber && x.wildcard == wildcard && x.stem in subjects)
      ensures tree.Keys == old(tree.Keys)
      ensures forall e :: Of(avatarSubscribings, e) == Of(old(avatarSubscribings), e)
      ensures forall e :: Of(avatarWildcardSubscribings, e) == Of(old(avatarWildcardSubscribings), e)
    {
      hide Subscriptions;
      var left := subjects;
      while left != {}
        invariant left <= subjects
        invariant forall x :: x in Relation() <==>
          x in old(Relation()) && !(x.subscriber == subscriber && x.wildcard == wildcard && x.stem in subjects - left)
        invariant tree.Keys == old(tree.Keys)
        invariant forall e :: Of(avatarSubscribings, e) == Of(old(avatarSubscribings), e)
        invariant forall e :: Of(avatarWildcardSubscribings, e) == Of(old(avatarWildcardSubscribings), e)
        decreases left
      {
        var subject :| subject in left;
        left := left - {subject};
        UnsubscribeStem(subscriber, subject, wildcard);
      }
    }

    method UnsubscribeAll(subscriber: EntityID)
      requires Valid()
      modifies this`tree, this`avatarSubscribings, this`avatarWildcardSubscribings
      ensures Valid() && Relation() == After(old(Relation()), Op.UnsubscribeAll(subscriber))
    {
      hide Subscriptions;
      ghost var was, plain, wild := Relation(), avatarSubscribings, avatarWildcardSubscribings;
      if subscriber in avatarSubscribings {
        var subjects := avatarSubscribings[subscriber];
        avatarSubscribings := avatarSubscribings - {subscriber};
        UnsubscribeEach(subscriber, subjects, false);
      }
      forall x: Subscription
        ensures x in Relation() <==> x in was && (x.subscriber != subscriber || x.wildcard)
        ensures !x.wildcard ==> (x in Relation() <==> x.stem in Of(avatarSubscribings, x.subscriber))
      {
        assert x in was <==> x.stem in Of(if x.wildcard then wild else plain, x.subscriber);
      }
      ghost var mid := Relation();
      assert Of(avatarWildcardSubscribings, subscriber) == Of(wild, subscriber);
      if subscriber in avatarWildcardSubscribings {
        var subjects := avatarWildcardSubscribings[subscriber];
        avatarWildcardSubscribings := avatarWildcardSubscribings - {subscriber};
        UnsubscribeEach(subscriber, subjects, true);
      }
      forall x: Subscription
        ensures x in Relation() <==> x in was && x.subscriber != subscriber
        ensures x in Relation() <==>
                x.stem in Of(if x.wildcard then avatarWildcardSubscribings else avatarSubscribings, x.subscriber)
      {
        assert x in was <==> x.stem in Of(if x.wildcard then wild else plain, x.subscriber);
        assert x in mid <==> x in was && (x.subscriber != subscriber || x.wildcard);
      }
    }

    /** OnFreeze: each subject of the trie is written over in both attributes. */
    method OnFreeze()
      requires Valid()
      modifies this`subscribersAttr, this`wildcardSubscribersAttr
      ensures Valid()
      ensures subscribersAttr == Frozen(old(subscribersAttr), tree, false)
      ensures wildcardSubscribersAttr == Frozen(old(wildcardSubscribersAttr), tree, true)
      ensures Stored(subscribersAttr, wildcardSubscribersAttr) == Relation()
    {
      FreezeRestore(subscribersAttr, wildcardSubscribersAttr, tree);
      hide Subscriptions, Stored, Overwritten, At, Covered, Inverse;
      ghost var plain, wild, done: set<Str> := subscribersAttr, wildcardSubscribersAttr, {};
      OverwriteNone(plain, tree, false);
      OverwriteNone(wild, tree, true);
      var left := tree.Keys;
      while left != {}
        invariant left == tree.Keys - done && done <= tree.Keys
        invariant subscribersAttr == Overwritten(plain, tree, false, done)
        invariant wildcardSubscribersAttr == Overwritten(wild, tree, true, done)
        decreases left
      {
        var s :| s in left;
        left := left - {s};
        OverwriteOne(plain, tree, false, done, s);
        OverwriteOne(wild, tree, true, done, s);
        assert At(tree, s, false) == tree[s].subscribers && At(tree, s, true) == tree[s].wildcardSubscribers;
        subscribersAttr := subscribersAttr[s := tree[s].subscribers];
        wildcardSubscribersAttr := wildcardSubscribersAttr[s := tree[s].wildcardSubscribers];
        done := done + {s};
      }
      assert done == tree.Keys;
      SameCovered(subscribersAttr, wildcardSubscribersAttr, tree);
    }

    /** The subscriptions of one attribute come back. */
    method RestoreFrom(attr: Attr, wildcard: bool)
      requires Consistent()
      modifies this`tree, this`avatarSubscribings, this`avatarWildcardSubscribings
      ensures Consistent() && old(tree.Keys) <= tree.Keys
      ensures forall x :: x in Relation() <==>
                x in old(Relation()) || (x.wildcard == wildcard && x.stem in attr && x.subscriber in attr[x.stem])
      ensures forall s | s in attr && attr[s] != {} :: s in tree
    {
      hide Subscriptions;
      var left := attr.Keys;
      while left != {}
        invariant left <= attr.Keys && Consistent() && old(tree.Keys) <= tree.Keys
        invariant forall x :: x in Relation() <==>
          x in old(Relation()) ||
          (x.wildcard == wildcard && x.stem in attr && x.stem !in left && x.subscriber in attr[x.stem])
        invariant forall s | s in attr && s !in left && attr[s] != {} :: s in tree
        decreases left
      {
        var subject :| subject in left;
        left := left - {subject};
        RestoreSubject(attr[subject], subject, wildcard);
      }
    }

    method RestoreSubject(eids: set<EntityID>, subject: Str, wildcard: bool)
      requires Consistent()
      modifies this`tree, this`avatarSubscribings, this`avatarWildcardSubscribings
      ensures Consistent() && old(tree.Keys) <= tree.Keys && (eids != {} ==> subject in tree)
      ensures forall x :: x in Relation() <==>
                x in old(Relation()) || (x.wildcard == wildcard && x.stem == subject && x.subscriber in eids)
    {
      hide Subscriptions, Inverse;
      var left := eids;
      while left != {}
        invariant left <= eids && Consistent() && old(tree.Keys) <= tree.Keys && (eids != left ==> subject in tree)
        invariant forall x :: x in Relation() <==>
          x in old(Relation()) || (x.wildcard == wildcard && x.stem == subject && x.subscriber in eids - left)
        decreases left
      {
        var eid :| eid in left;
        left := left - {eid};
        SubscribeStem(eid, subject, wildcard);
      }
    }

    /** OnRestored: the subscriptions in the attributes join those that the service has. */
    method OnRestored()
      requires Consistent()
      requires Covered(subscribersAttr, wildcardSubscribersAttr, tree) || Relation() == {}
      modifies this`tree, this`avatarSubscribings, this`avatarWildcardSubscribings
      ensures Valid() && Relation() == old(Relation()) + Stored(subscribersAttr, wildcardSubscribersAttr)
    {
      hide Subscriptions, Inverse;
      RestoreFrom(subscribersAttr, false);
      RestoreFrom(wildcardSubscribersAttr, true);
    }
  }

  ghost predicate Distinct(via: seq<Subscription>)
  {
    forall i, j | 0 <= i < j < |via| :: via[i] != via[j]
  }

  lemma DistinctMore(a: seq<Subscription>, b: seq<Subscription>)
    requires Distinct(a) && Distinct(b) && forall x | x in a :: x !in b
    ensures Distinct(a + b)
  {
    assert forall i | 0 <= i < |a| :: a[i] in a;
  }

  ghost function CallsFor(via: seq<Subscription>, subject: Str, content: Str): (r: seq<Call>)
    ensures |r| == |via| && forall i | 0 <= i < |r| :: r[i] == Call(via[i].subscriber, subject, content)
  {
    if |via| == 0 then [] else [Call(via[0].subscriber, subject, content)] + CallsFor(via[1..], subject, content)
  }

  lemma CallsForAppend(a: seq<Subscription>, b: seq<Subscription>, subject: Str, content: Str)
    ensures CallsFor(a + b, subject, content) == CallsFor(a, subject, content) + CallsFor(b, subject, content)
  {
  }

  /** Freezing and restoring into a new service; its attributes are those of the frozen one. */
  method FreezeThenRestore(pss: PublishSubscribeService) returns (restored: PublishSubscribeService)
    requires pss.Valid()
    modifies pss
    ensures fresh(restored) && restored.Valid() && restored.Relation() == After(old(pss.Relation()), Op.Reload)
  {
    pss.OnFreeze();
    restored := new PublishSubscribeService(pss.subscribersAttr, pss.wildcardSubscribersAttr);
    restored.OnRestored();
  }

  /** Any sequence of operations leaves the service with the subscriptions that they ask for. */
  method Run(ops: seq<Op>) returns (pss: PublishSubscribeService)
    ensures fresh(pss) && pss.Valid() && pss.Relation() == Replay(ops)
  {
    hide Subscriptions, Inverse, Covered, After;
    pss := new PublishSubscribeService(map[], map[]);
    assert pss.Valid();
    var i := 0;
    while i < |ops|
      invariant i <= |ops| && fresh(pss) && pss.Valid() && pss.Relation() == Replay(ops[..i])
      decreases |ops| - i
    {
      assert ops[..i + 1][..i] == ops[..i];
      match ops[i] {
      case Subscribe(e, subject) =>
        var _ := pss.Subscribe(e, subject);
      case Unsubscribe(e, subject) =>
        var _ := pss.Unsubscribe(e, subject);
      case UnsubscribeAll(e) =>
        pss.UnsubscribeAll(e);
      case Reload =>
        pss := FreezeThenRestore(pss);
      }
      i := i + 1;
    }
    assert ops[..i] == ops;
  }
}
