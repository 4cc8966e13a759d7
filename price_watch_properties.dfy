/**
 * What the subscription registry and the price check guarantee, stated on
 * the value-level definitions in `PriceWatch` that the registry's methods
 * are proved against.
 */
module PriceWatchProperties {
  import opened PriceWatch

  // ---------------------------------------------------------------------
  // Subscribing and listing

  /** Subscribing twice to the same query keeps both records: there is no deduplication. */
  lemma SubscribeTwiceKeepsBoth(subs: map<UserId, seq<Sub>>, user: UserId, query: string)
    ensures var r := Subscribed(Subscribed(subs, user, query), user, query);
      && |r[user]| == |ListOf(subs, user)| + 2
      && r[user][..|ListOf(subs, user)|] == ListOf(subs, user)
      && r[user][|r[user]| - 2] == NewSub(query)
      && r[user][|r[user]| - 1] == NewSub(query)
  {
    var once := Subscribed(subs, user, query);
    var twice := Subscribed(once, user, query);
    assert once[user] == ListOf(subs, user) + [NewSub(query)];
    assert twice[user] == once[user] + [NewSub(query)];
  }

  /**
   * After a subscription the user's listing is never "no subscriptions", and
   * it is the earlier listing followed by the new query at the starting price.
   */
  lemma ListingAfterSubscribe(subs: map<UserId, seq<Sub>>, user: UserId, query: string)
    ensures Listing(Subscribed(subs, user, query), user).Entries?
    ensures var lines := Listing(Subscribed(subs, user, query), user).lines;
      && |lines| == |ListOf(subs, user)| + 1
      && lines[|lines| - 1] == Line(query, 70000.0)
      && (forall k :: 0 <= k < |lines| - 1 ==>
            lines[k] == Line(ListOf(subs, user)[k].query, ListOf(subs, user)[k].price))
  {
    var r := Subscribed(subs, user, query);
    assert r[user] == ListOf(subs, user) + [NewSub(query)];
  }

  // ---------------------------------------------------------------------
  // The price check for any price source

  /**
   * A message is sent for a list exactly for the records whose current price
   * passes the drop rule, and it reports the record's price before the update.
   */
  lemma {:induction false} SentIff(user: UserId, l: seq<Sub>, quote: Sub -> real, n: Notification)
    ensures n in SweepList(user, l, quote).sent <==>
      exists k :: 0 <= k < |l| && IsDrop(quote(l[k]), l[k].price) && n == Notice(user, l[k], quote(l[k]))
    decreases |l|
  {
    if l != [] {
      var init := l[..|l| - 1];
      var last := l[|l| - 1];
      SentIff(user, init, quote, n);
      if n in SweepList(user, l, quote).sent {
        if n in SweepList(user, init, quote).sent {
          var k :| 0 <= k < |init| && IsDrop(quote(init[k]), init[k].price) && n == Notice(user, init[k], quote(init[k]));
          assert l[k] == init[k];
        } else {
          assert IsDrop(quote(last), last.price) && n == Notice(user, last, quote(last));
        }
      } else {
        forall k | 0 <= k < |l| && IsDrop(quote(l[k]), l[k].price)
          ensures n != Notice(user, l[k], quote(l[k]))
        {
          if k < |init| {
            assert l[k] == init[k];
          }
        }
      }
    }
  }

  /**
   * Checking a list piece by piece is checking it at once: the records and
   * the messages of the first part, followed by those of the second.
   */
  lemma {:induction false} SweepListAppend(user: UserId, l1: seq<Sub>, l2: seq<Sub>, quote: Sub -> real)
    ensures SweepList(user, l1 + l2, quote).subs == SweepList(user, l1, quote).subs + SweepList(user, l2, quote).subs
    ensures SweepList(user, l1 + l2, quote).sent == SweepList(user, l1, quote).sent + SweepList(user, l2, quote).sent
    decreases |l2|
  {
    if l2 == [] {
      assert l1 + l2 == l1;
    } else {
      var init := l2[..|l2| - 1];
      var last := l2[|l2| - 1];
      SweepListAppend(user, l1, init, quote);
      assert (l1 + l2)[..|l1 + l2| - 1] == l1 + init;
      assert (l1 + l2)[|l1 + l2| - 1] == last;
      var a := SweepList(user, l1, quote);
      var b := SweepList(user, init, quote);
      ConcatAssoc(a.subs, b.subs, [Updated(last, quote(last))]);
      ConcatAssoc(a.sent, b.sent, NoticeOf(user, last, quote(last)));
    }
  }

  /** Checking a single record sends exactly its own message, if any, and updates it. */
  lemma SweepListSingle(user: UserId, s: Sub, quote: Sub -> real)
    ensures SweepList(user, [s], quote).sent == NoticeOf(user, s, quote(s))
    ensures SweepList(user, [s], quote).subs == [Updated(s, quote(s))]
  {
    assert [s][..0] == [];
  }

  /** Every message of a whole check is a message of some listed user's list. */
  lemma {:induction false} SweepAllSentFrom(users: seq<UserId>, subs: map<UserId, seq<Sub>>, quote: Sub -> real, n: Notification)
    requires Elements(users) <= subs.Keys
    requires n in SweepAll(users, subs, quote).sent
    ensures exists k :: 0 <= k < |users| && users[k] in subs && n in SweepList(users[k], subs[users[k]], quote).sent
    decreases |users|
  {
    var init := users[..|users| - 1];
    var last := users[|users| - 1];
    if n in SweepAll(init, subs, quote).sent {
      SweepAllSentFrom(init, subs, quote, n);
      var k :| 0 <= k < |init| && init[k] in subs && n in SweepList(init[k], subs[init[k]], quote).sent;
      assert users[k] == init[k];
    } else {
      assert n in SweepList(last, subs[last], quote).sent;
      assert users[|users| - 1] == last;
    }
  }

  /** Every message of a listed user's list is a message of the whole check. */
  lemma {:induction false} SweepAllSentTo(users: seq<UserId>, subs: map<UserId, seq<Sub>>, quote: Sub -> real, n: Notification, k: nat)
    requires Elements(users) <= subs.Keys
    requires k < |users| && users[k] in subs && n in SweepList(users[k], subs[users[k]], quote).sent
    ensures n in SweepAll(users, subs, quote).sent
    decreases |users|
  {
    var init := users[..|users| - 1];
    if k < |init| {
      assert init[k] == users[k];
      SweepAllSentTo(init, subs, quote, n, k);
    }
  }

  /**
   * Every message of a whole check goes to a user of the registry and is one
   * of the messages of that user's list, and every message of any user's
   * list is sent.
   */
  lemma SweepAllSentIff(users: seq<UserId>, subs: map<UserId, seq<Sub>>, quote: Sub -> real, n: Notification)
    requires Elements(users) <= subs.Keys
    ensures n in SweepAll(users, subs, quote).sent <==>
      exists k :: 0 <= k < |users| && users[k] in subs && n in SweepList(users[k], subs[users[k]], quote).sent
  {
    if n in SweepAll(users, subs, quote).sent {
      SweepAllSentFrom(users, subs, quote, n);
    }
    forall k | 0 <= k < |users| && users[k] in subs && n in SweepList(users[k], subs[users[k]], quote).sent
      ensures n in SweepAll(users, subs, quote).sent
    {
      SweepAllSentTo(users, subs, quote, n, k);
    }
  }

  /**
   * A check keeps every key, every list's length and every record's query
   * and link; a record whose current price passes the drop rule now holds
   * that price, and every other record is unchanged.
   */
  lemma SweepKeepsShape(users: seq<UserId>, subs: map<UserId, seq<Sub>>, quote: Sub -> real, u: UserId)
    requires Elements(users) <= subs.Keys
    requires u in subs
    ensures var r := SweepAll(users, subs, quote).subs;
      && r.Keys == subs.Keys
      && |r[u]| == |subs[u]|
      && (forall k :: 0 <= k < |subs[u]| ==>
            && r[u][k].query == subs[u][k].query
            && r[u][k].url == subs[u][k].url
            && r[u][k].price == (if u in users && IsDrop(quote(subs[u][k]), subs[u][k].price)
                                 then quote(subs[u][k]) else subs[u][k].price))
  {
    SweepAllAt(users, subs, quote, u);
  }

  /** A list none of whose records passes the drop rule sends no message. */
  lemma {:induction false} SilentWithoutDrop(user: UserId, l: seq<Sub>, quote: Sub -> real)
    requires forall k :: 0 <= k < |l| ==> !IsDrop(quote(l[k]), l[k].price)
    ensures SweepList(user, l, quote).sent == []
    decreases |l|
  {
    if l != [] {
      SilentWithoutDrop(user, l[..|l| - 1], quote);
    }
  }

  /** A price source that looks up the current price of a record's query. */
  function ByQuery(market: string -> real): Sub -> real
  {
    (s: Sub) => market(s.query)
  }

  /**
   * Once a record has been notified, its stored price is the notified price:
   * a second check that sees the same positive market prices (a price source
   * that depends on the query only) sends nothing.
   */
  lemma SecondSweepSilent(user: UserId, l: seq<Sub>, market: string -> real)
    requires forall k :: 0 <= k < |l| ==> market(l[k].query) > 0.0
    ensures SweepList(user, SweepList(user, l, ByQuery(market)).subs, ByQuery(market)).sent == []
  {
    var quote := ByQuery(market);
    var once := SweepList(user, l, quote).subs;
    forall k | 0 <= k < |once|
      ensures !IsDrop(quote(once[k]), once[k].price)
    {
      assert once[k] == Updated(l[k], quote(l[k]));
    }
    SilentWithoutDrop(user, once, quote);
  }

  // ---------------------------------------------------------------------
  // The price check with the stubbed lookup

  /** The stub's current price passes the drop rule exactly when the stored price is not negative. */
  lemma StubDropIff(s: Sub)
    ensures IsDrop(StubPrice(s), s.price) <==> s.price >= 0.0
  {
  }

  /** The message the stubbed check sends for record `s`. */
  function StubMessage(user: UserId, s: Sub): Notification
  {
    Notice(user, s, StubPrice(s))
  }

  /** All prices in `l` are non-negative. */
  predicate NonNegative(l: seq<Sub>)
  {
    forall k :: 0 <= k < |l| ==> l[k].price >= 0.0
  }

  /**
   * With non-negative prices the stubbed check notifies every record of the
   * list, once and in list order, and multiplies every price by 0.88, which
   * lowers every positive price.
   */
  lemma {:induction false} StubSweepList(user: UserId, l: seq<Sub>)
    requires NonNegative(l)
    ensures SweepList(user, l, StubPrice).sent == seq(|l|, k requires 0 <= k < |l| => StubMessage(user, l[k]))
    ensures forall k :: 0 <= k < |l| ==> SweepList(user, l, StubPrice).subs[k] == l[k].(price := l[k].price * StubFactor)
    ensures forall k :: 0 <= k < |l| && l[k].price > 0.0 ==> SweepList(user, l, StubPrice).subs[k].price < l[k].price
    ensures NonNegative(SweepList(user, l, StubPrice).subs)
    decreases |l|
  {
    if l != [] {
      var init := l[..|l| - 1];
      var last := l[|l| - 1];
      StubSweepList(user, init);
      StubDropIff(last);
      assert NoticeOf(user, last, StubPrice(last)) == [StubMessage(user, last)];
    }
  }

  /** Every (user, record) pair of the registry, users in key order, records in list order. */
  function Records(users: seq<UserId>, subs: map<UserId, seq<Sub>>): (r: seq<(UserId, Sub)>)
    requires Elements(users) <= subs.Keys
    decreases |users|
  {
    if users == [] then []
    else
      var last := users[|users| - 1];
      Records(users[..|users| - 1], subs) + seq(|subs[last]|, k requires 0 <= k < |subs[last]| => (last, subs[last][k]))
  }

  /** Every list of `subs` has only non-negative prices. */
  predicate AllNonNegative(subs: map<UserId, seq<Sub>>)
  {
    forall u :: u in subs ==> NonNegative(subs[u])
  }

  /**
   * Subscribing adds a record at the positive starting price, so a registry
   * built from the empty one by subscriptions and stubbed checks only ever
   * holds non-negative prices.
   */
  lemma SubscribedKeepsNonNegative(subs: map<UserId, seq<Sub>>, user: UserId, query: string)
    requires AllNonNegative(subs)
    ensures AllNonNegative(Subscribed(subs, user, query))
  {
    var r := Subscribed(subs, user, query);
    assert r[user] == ListOf(subs, user) + [NewSub(query)];
  }

  /** The stubbed check's message for each (user, record) pair, in order. */
  function StubMessages(rs: seq<(UserId, Sub)>): (r: seq<Notification>)
  {
    seq(|rs|, k requires 0 <= k < |rs| => StubMessage(rs[k].0, rs[k].1))
  }

  /** The messages for one user's records appended to earlier pairs are appended to their messages. */
  lemma StubMessagesAppend(rs0: seq<(UserId, Sub)>, user: UserId, l: seq<Sub>)
    ensures StubMessages(rs0 + seq(|l|, k requires 0 <= k < |l| => (user, l[k])))
         == StubMessages(rs0) + seq(|l|, k requires 0 <= k < |l| => StubMessage(user, l[k]))
  {
    var rs := rs0 + seq(|l|, k requires 0 <= k < |l| => (user, l[k]));
    forall k | 0 <= k < |rs|
      ensures StubMessages(rs)[k]
           == (StubMessages(rs0) + seq(|l|, k requires 0 <= k < |l| => StubMessage(user, l[k])))[k]
    {
      if k >= |rs0| {
        assert rs[k] == (user, l[k - |rs0|]);
      }
    }
  }

  /**
   * With non-negative prices the program's check sends exactly one message
   * per record of the registry, in user-then-subscription order, each with
   * the record's price before the check.
   */
  lemma {:induction false} StubSweepAll(users: seq<UserId>, subs: map<UserId, seq<Sub>>)
    requires Elements(users) <= subs.Keys
    requires AllNonNegative(subs)
    ensures SweepAll(users, subs, StubPrice).sent == StubMessages(Records(users, subs))
    decreases |users|
  {
    if users != [] {
      var init := users[..|users| - 1];
      var last := users[|users| - 1];
      StubSweepAll(init, subs);
      StubSweepList(last, subs[last]);
      StubMessagesAppend(Records(init, subs), last, subs[last]);
    }
  }

  /** The program's check keeps all prices non-negative. */
  lemma StubKeepsNonNegative(users: seq<UserId>, subs: map<UserId, seq<Sub>>)
    requires Elements(users) <= subs.Keys
    requires AllNonNegative(subs)
    ensures AllNonNegative(SweepAll(users, subs, StubPrice).subs)
  {
    forall u | u in subs
      ensures NonNegative(SweepAll(users, subs, StubPrice).subs[u])
    {
      SweepAllAt(users, subs, StubPrice, u);
      StubSweepList(u, subs[u]);
    }
  }

  /** `p` multiplied by 0.88, `n` times over: `p` times 0.88 to the `n`. */
  function Discounted(p: real, n: nat): real
  {
    if n == 0 then p else Discounted(p, n - 1) * StubFactor
  }

  /** Repeated discounting keeps a non-negative price non-negative and lowers a positive one. */
  lemma {:induction false} DiscountedBounds(p: real, n: nat)
    requires p >= 0.0
    ensures 0.0 <= Discounted(p, n) <= p
    ensures p > 0.0 && n > 0 ==> Discounted(p, n) < p
  {
    if n > 0 {
      DiscountedBounds(p, n - 1);
    }
  }

  /** A list after `n` stubbed checks. */
  function StubChecks(user: UserId, l: seq<Sub>, n: nat): seq<Sub>
  {
    if n == 0 then l else SweepList(user, StubChecks(user, l, n - 1), StubPrice).subs
  }

  /** One more stubbed check after `n` turns prices discounted `n` times into prices discounted `n + 1` times. */
  lemma StubCheckStep(user: UserId, prev: seq<Sub>, l: seq<Sub>, n: nat)
    requires NonNegative(prev) && |prev| == |l|
    requires forall k :: 0 <= k < |l| ==> prev[k] == l[k].(price := Discounted(l[k].price, n))
    ensures |SweepList(user, prev, StubPrice).subs| == |l|
    ensures forall k :: 0 <= k < |l| ==> SweepList(user, prev, StubPrice).subs[k] == l[k].(price := Discounted(l[k].price, n + 1))
    ensures NonNegative(SweepList(user, prev, StubPrice).subs)
  {
    StubSweepList(user, prev);
  }

  /**
   * After `n` stubbed checks every record keeps its query and link, its
   * price is the original price times 0.88 to the `n`, and no price has
   * become negative.
   */
  lemma {:induction false} StubChecksPrices(user: UserId, l: seq<Sub>, n: nat)
    requires NonNegative(l)
    ensures |StubChecks(user, l, n)| == |l|
    ensures forall k :: 0 <= k < |l| ==> StubChecks(user, l, n)[k] == l[k].(price := Discounted(l[k].price, n))
    ensures NonNegative(StubChecks(user, l, n))
  {
    if n > 0 {
      StubChecksPrices(user, l, n - 1);
      StubCheckStep(user, StubChecks(user, l, n - 1), l, n - 1);
    }
  }

  /**
   * The stub never settles: the check after any number `n` of earlier
   * checks notifies every record again, reporting as the old price the
   * original price times 0.88 to the `n`, which is below the original price
   * once `n > 0` and the original price is positive.
   */
  lemma StubNeverSettles(user: UserId, l: seq<Sub>, n: nat)
    requires NonNegative(l)
    ensures var sent := SweepList(user, StubChecks(user, l, n), StubPrice).sent;
      && |sent| == |l|
      && forall k :: 0 <= k < |l| ==>
           && sent[k].query == l[k].query
           && sent[k].was == Discounted(l[k].price, n)
           && (n > 0 && l[k].price > 0.0 ==> sent[k].was < l[k].price)
  {
    StubChecksPrices(user, l, n);
    forall k | 0 <= k < |l| {
      DiscountedBounds(l[k].price, n);
    }
    StubSweepList(user, StubChecks(user, l, n));
  }

  // ---------------------------------------------------------------------
  // A client of the registry

  /**
   * One user subscribes, the program's check runs once: the user gets one
   * message from 70000 down to 61600, and that price is stored. A user who
   * sent an empty `/subscribe` gets the usage hint and still has no listing.
   */
  method SubscribeThenCheck()
  {
    var r := new Registry();
    var reply := r.Subscribe(7, "LG OLED 55");
    assert reply == Confirmed("LG OLED 55");
    assert r.users == [7];
    assert r.subs == map[7 := [Sub("LG OLED 55", 70000.0, "https://example.com")]];
    r.CheckPrices();
    assert [7][..0] == [];
    assert r.outbox == [Notification(7, "LG OLED 55", 70000.0, 61600.0, "https://example.com")];
    assert r.subs[7] == [Sub("LG OLED 55", 61600.0, "https://example.com")];
    var hint := r.Subscribe(8, "");
    assert hint == UsageHint;
    assert Listing(r.subs, 8) == NoSubscriptions;
  }
}
