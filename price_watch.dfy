/**
 * The subscription registry of the price-watch bot and its periodic price
 * check: `subscribe` appends records, `my_subs` lists them, `check_prices`
 * sweeps every record, notifies on a 10% drop and writes the new price back.
 */
module PriceWatch {

  /** A Telegram user id, the key of the registry. */
  type UserId = int

  /** One subscription record `{query, price, url}`; `price` is the reference price. */
  datatype Sub = Sub(query: string, price: real, url: string)

  /**
   * One message sent by the price check: recipient, query, the price the
   * record held before the check ("Было"), the current price ("Стало") and the link.
   */
  datatype Notification = Notification(user: UserId, query: string, was: real, now: real, url: string)

  /** The answer to `/subscribe`: the usage hint, or the confirmation for `query`. */
  datatype SubscribeReply = UsageHint | Confirmed(query: string)

  /** One line of the "my subscriptions" answer: the query and its current price. */
  datatype Line = Line(query: string, price: real)

  /** The answer to "my subscriptions". */
  datatype ListReply = NoSubscriptions | Entries(lines: seq<Line>)

  /** The result of sweeping one user's list: the updated list and the messages sent. */
  datatype ListSweep = ListSweep(subs: seq<Sub>, sent: seq<Notification>)

  /** The result of sweeping the whole registry. */
  datatype RegistrySweep = RegistrySweep(subs: map<UserId, seq<Sub>>, sent: seq<Notification>)

  /** Every new subscription starts at this placeholder price... */
  const StartPrice: real := 70000.0
  /** ...and with this placeholder link. */
  const PlaceholderUrl: string := "https://example.com"
  /** The stubbed price lookup reports the stored price times this factor. */
  const StubFactor: real := 0.88
  /** A price counts as dropped when it is at most this fraction of the reference. */
  const DropFactor: real := 0.9

  /** The record `subscribe` appends for `query`: the placeholder price and link. */
  function NewSub(query: string): (r: Sub)
    ensures r.query == query && r.price == 70000.0 && r.url == "https://example.com"
  {
    Sub(query, StartPrice, PlaceholderUrl)
  }

  /**
   * The 10% drop rule: the current price is at most 90% of the reference
   * price, that is, it has fallen by a tenth of the reference or more.
   */
  predicate IsDrop(current: real, reference: real): (r: bool)
    ensures r <==> reference - current >= reference / 10.0
    ensures r && reference >= 0.0 ==> current <= reference
  {
    current <= reference * DropFactor
  }

  /** The stubbed current-price lookup of the price check: a fall of 12%. */
  function StubPrice(s: Sub): (r: real)
    ensures s.price - r == s.price * 12.0 / 100.0
    ensures s.price >= 0.0 ==> 0.0 <= r <= s.price
    ensures s.price > 0.0 ==> r < s.price
  {
    s.price * StubFactor
  }

  // ---------------------------------------------------------------------
  // Subscribing and listing, on the registry's value

  /** The list of `user`, the empty list when the user has no key yet. */
  function ListOf(subs: map<UserId, seq<Sub>>, user: UserId): seq<Sub>
  {
    if user in subs then subs[user] else []
  }

  /** The registry after a successful `subscribe(user, query)`. */
  function Subscribed(subs: map<UserId, seq<Sub>>, user: UserId, query: string): (r: map<UserId, seq<Sub>>)
    ensures r.Keys == subs.Keys + {user}
    ensures user in subs ==> |r[user]| == |subs[user]| + 1 && r[user][..|subs[user]|] == subs[user]
    ensures user !in subs ==> r[user] == [NewSub(query)]
    ensures r[user][|r[user]| - 1] == Sub(query, 70000.0, "https://example.com")
    ensures forall v :: v in subs && v != user ==> v in r && r[v] == subs[v]
  {
    var old_list := ListOf(subs, user);
    var r := subs[user := old_list + [NewSub(query)]];
    assert r[user][..|old_list|] == old_list;
    r
  }

  /** The key order after `user` subscribes: a new key goes to the end. */
  function Enrolled(users: seq<UserId>, user: UserId): (r: seq<UserId>)
    ensures user in r
    ensures user in users ==> r == users
    ensures user !in users ==> |r| == |users| + 1 && r[..|users|] == users && r[|users|] == user
  {
    if user in users then users else users + [user]
  }

  /** The answer to "my subscriptions" for `user`. */
  function Listing(subs: map<UserId, seq<Sub>>, user: UserId): (r: ListReply)
    ensures r.NoSubscriptions? <==> ListOf(subs, user) == []
    ensures r.Entries? ==> user in subs && |r.lines| == |subs[user]|
    ensures r.Entries? ==> forall k :: 0 <= k < |r.lines| ==>
      r.lines[k].query == subs[user][k].query && r.lines[k].price == subs[user][k].price
  {
    if user !in subs || subs[user] == [] then NoSubscriptions
    else Entries(seq(|subs[user]|, k requires 0 <= k < |subs[user]| => Line(subs[user][k].query, subs[user][k].price)))
  }

  // ---------------------------------------------------------------------
  // The price check, on the registry's value

  /** One record after the check has seen `current` for it. */
  function Updated(s: Sub, current: real): (r: Sub)
    ensures r.query == s.query && r.url == s.url
    ensures IsDrop(current, s.price) ==> r.price == current
    ensures !IsDrop(current, s.price) ==> r == s
  {
    if IsDrop(current, s.price) then s.(price := current) else s
  }

  /** The message sent to `user` for record `s` at the current price `current`. */
  function Notice(user: UserId, s: Sub, current: real): Notification
  {
    Notification(user, s.query, s.price, current, s.url)
  }

  /**
   * The message, if any, the check sends to `user` for a record that now
   * costs `current`: one message exactly on a drop, reporting the record's
   * price before the update.
   */
  function NoticeOf(user: UserId, s: Sub, current: real): (r: seq<Notification>)
    ensures |r| <= 1
    ensures r != [] <==> IsDrop(current, s.price)
    ensures r != [] ==> && r[0].user == user && r[0].query == s.query && r[0].url == s.url
                        && r[0].was == s.price && r[0].now == current
  {
    if IsDrop(current, s.price) then [Notice(user, s, current)] else []
  }

  /** Sweeping the list `l` of `user` in order, with `quote` giving each record's current price. */
  function SweepList(user: UserId, l: seq<Sub>, quote: Sub -> real): (r: ListSweep)
    ensures |r.subs| == |l|
    ensures forall k {:trigger r.subs[k]} :: 0 <= k < |l| ==> r.subs[k] == Updated(l[k], quote(l[k]))
    ensures |r.sent| <= |l|
    decreases |l|
  {
    if l == [] then ListSweep([], [])
    else
      var p := SweepList(user, l[..|l| - 1], quote);
      var last := l[|l| - 1];
      ListSweep(p.subs + [Updated(last, quote(last))], p.sent + NoticeOf(user, last, quote(last)))
  }

  /** Sweeping the lists of `users`, in that order, each from its value in `subs`. */
  function SweepAll(users: seq<UserId>, subs: map<UserId, seq<Sub>>, quote: Sub -> real): (r: RegistrySweep)
    requires Elements(users) <= subs.Keys
    ensures r.subs.Keys == subs.Keys
    decreases |users|
  {
    if users == [] then RegistrySweep(subs, [])
    else
      var p := SweepAll(users[..|users| - 1], subs, quote);
      var last := users[|users| - 1];
      var l := SweepList(last, subs[last], quote);
      RegistrySweep(p.subs[last := l.subs], p.sent + l.sent)
  }

  /**
   * Checking record `j` of `l` after records `0..j` turns the partly swept
   * list into the list swept one record further, and appends that record's
   * message, if any.
   */
  lemma SweepListPatch(user: UserId, l: seq<Sub>, j: nat, quote: Sub -> real)
    requires j < |l|
    ensures var part := SweepList(user, l[..j], quote).subs + l[j..];
      && part[j] == l[j]
      && part[j := Updated(l[j], quote(l[j]))] == SweepList(user, l[..j + 1], quote).subs + l[j + 1..]
      && (!IsDrop(quote(l[j]), l[j].price) ==> part == SweepList(user, l[..j + 1], quote).subs + l[j + 1..])
    ensures SweepList(user, l[..j + 1], quote).sent
         == SweepList(user, l[..j], quote).sent + NoticeOf(user, l[j], quote(l[j]))
  {
    assert l[..j + 1][..j] == l[..j];
    var done := SweepList(user, l[..j], quote).subs;
    var part := done + l[j..];
    var next := done + [Updated(l[j], quote(l[j]))] + l[j + 1..];
    assert SweepList(user, l[..j + 1], quote).subs + l[j + 1..] == next;
    assert part[j := Updated(l[j], quote(l[j]))] == next;
  }

  /** Appending in two steps is appending at once. */
  lemma ConcatAssoc<T>(a: seq<T>, b: seq<T>, c: seq<T>)
    ensures (a + b) + c == a + (b + c)
  {
  }

  /** Sweeping one more user extends the sweep of the shorter key prefix. */
  lemma SweepAllStep(users: seq<UserId>, i: nat, subs: map<UserId, seq<Sub>>, quote: Sub -> real)
    requires i < |users| && users[i] in subs
    requires Elements(users[..i]) <= subs.Keys && Elements(users[..i + 1]) <= subs.Keys
    ensures SweepAll(users[..i + 1], subs, quote)
         == RegistrySweep(SweepAll(users[..i], subs, quote).subs[users[i] := SweepList(users[i], subs[users[i]], quote).subs],
                          SweepAll(users[..i], subs, quote).sent + SweepList(users[i], subs[users[i]], quote).sent)
  {
    assert users[..i + 1][..i] == users[..i];
  }

  /**
   * What the sweep of `users` leaves in one user's list: the swept list for
   * a user among `users`, the list unchanged for any other user.
   */
  lemma {:induction false} SweepAllAt(users: seq<UserId>, subs: map<UserId, seq<Sub>>, quote: Sub -> real, u: UserId)
    requires Elements(users) <= subs.Keys
    requires u in subs
    ensures u in users ==> SweepAll(users, subs, quote).subs[u] == SweepList(u, subs[u], quote).subs
    ensures u !in users ==> SweepAll(users, subs, quote).subs[u] == subs[u]
    decreases |users|
  {
    if users != [] {
      var init := users[..|users| - 1];
      SweepAllAt(init, subs, quote, u);
      assert u in users <==> u in init || u == users[|users| - 1];
    }
  }

  /** No user id occurs twice in `users`. */
  predicate Distinct(users: seq<UserId>)
  {
    forall i, j :: 0 <= i < j < |users| ==> users[i] != users[j]
  }

  /** The set of ids occurring in `users`. */
  function Elements(users: seq<UserId>): (r: set<UserId>)
    decreases |users|
  {
    if users == [] then {} else Elements(users[..|users| - 1]) + {users[|users| - 1]}
  }

  /** `Elements` holds exactly the entries of the list. */
  lemma {:induction false} ElementsMember(users: seq<UserId>, u: UserId)
    ensures u in users <==> u in Elements(users)
    decreases |users|
  {
    if users != [] {
      var init := users[..|users| - 1];
      ElementsMember(init, u);
      assert users == init + [users[|users| - 1]];
    }
  }

  /** Adding a new id at the end keeps the ids distinct and adds it to their set. */
  lemma Enroll(users: seq<UserId>, user: UserId)
    requires Distinct(users) && user !in users
    ensures Distinct(users + [user])
    ensures Elements(users + [user]) == Elements(users) + {user}
  {
    assert (users + [user])[..|users|] == users;
  }

  /** Every entry of the list is among its ids. */
  lemma {:induction false} ElementAt(users: seq<UserId>, i: nat)
    requires i < |users|
    ensures users[i] in Elements(users)
    decreases |users|
  {
    if i < |users| - 1 {
      ElementAt(users[..|users| - 1], i);
    }
  }

  /** The ids of a prefix are among the ids of the whole list. */
  lemma {:induction false} ElementsPrefix(users: seq<UserId>, i: nat)
    requires i <= |users|
    ensures Elements(users[..i]) <= Elements(users)
    decreases |users|
  {
    if i < |users| {
      ElementsPrefix(users[..|users| - 1], i);
      assert users[..|users| - 1][..i] == users[..i];
    } else {
      assert users[..i] == users;
    }
  }

  /** In a list without repetitions, an entry does not occur before its own position. */
  lemma NotInPrefix(users: seq<UserId>, i: nat)
    requires Distinct(users) && i < |users|
    ensures users[i] !in users[..i]
  {
  }

  // ---------------------------------------------------------------------
  // The registry as the program keeps it

  /**
   * The global `subscriptions` dictionary: `subs` maps each user to the
   * list of records, `users` is the dictionary's key order, and `outbox`
   * is every message the price check has sent so far.
   */
  class Registry {
    var users: seq<UserId>
    var subs: map<UserId, seq<Sub>>
    var outbox: seq<Notification>

    /** The key order lists every key of `subs` exactly once. */
    ghost predicate Valid()
      reads this
    {
      && Distinct(users)
      && subs.Keys == Elements(users)
    }

    /** The empty registry the program starts with. */
    constructor ()
      ensures Valid()
      ensures users == [] && subs == map[] && outbox == []
    {
      users := [];
      subs := map[];
      outbox := [];
    }

    /**
     * `/subscribe query` from `user`: an empty query gets the usage hint and
     * changes nothing; otherwise the user's list is created if missing and
     * the new record is appended to it, with no check for duplicates.
     */
    method Subscribe(user: UserId, query: string) returns (reply: SubscribeReply)
      requires Valid()
      modifies this
      ensures Valid()
      ensures reply == if query == [] then UsageHint else Confirmed(query)
      ensures query == [] ==> users == old(users) && subs == old(subs)
      ensures query != [] ==> users == Enrolled(old(users), user) && subs == Subscribed(old(subs), user, query)
      ensures outbox == old(outbox)
    {
      if query == [] {
        return UsageHint;
      }
      ElementsMember(users, user);
      if user !in subs {
        Enroll(users, user);
        users := users + [user];
        subs := subs[user := []];
      }
      subs := subs[user := subs[user] + [NewSub(query)]];
      return Confirmed(query);
    }

    /**
     * The inner loop of the price check for one user: every record of the
     * user's list in order; on a drop, the message carrying the old price is
     * sent and then the current price is stored in the record.
     */
    method CheckUserWith(u: UserId, quote: Sub -> real)
      requires u in subs
      modifies this
      ensures users == old(users)
      ensures subs == old(subs)[u := SweepList(u, old(subs)[u], quote).subs]
      ensures outbox == old(outbox) + SweepList(u, old(subs)[u], quote).sent
    {
      ghost var orig := subs[u];
      assert SweepList(u, orig[..0], quote).subs + orig[0..] == orig;
      var j := 0;
      while j < |subs[u]|
        invariant 0 <= j <= |orig|
        invariant users == old(users)
        invariant u in subs && subs == old(subs)[u := subs[u]]
        invariant subs[u] == SweepList(u, orig[..j], quote).subs + orig[j..]
        invariant outbox == old(outbox) + SweepList(u, orig[..j], quote).sent
      {
        var s := subs[u][j];
        var current := quote(s);
        SweepListPatch(u, orig, j, quote);
        if IsDrop(current, s.price) {
          ConcatAssoc(old(outbox), SweepList(u, orig[..j], quote).sent, NoticeOf(u, s, current));
          outbox := outbox + [Notice(u, s, current)];
          subs := subs[u := subs[u][j := s.(price := current)]];
        }
        assert subs[u] == SweepList(u, orig[..j + 1], quote).subs + orig[j + 1..];
        j := j + 1;
      }
      assert orig[..j] == orig && orig[j..] == [];
      assert SweepList(u, orig[..j], quote).subs + orig[j..] == SweepList(u, orig, quote).subs;
    }

    /**
     * One price check with `quote` giving each record's current price: every
     * user in key order, and for each the records of its list in order.
     */
    method CheckPricesWith(quote: Sub -> real)
      requires Valid()
      modifies this
      ensures Valid()
      ensures users == old(users)
      ensures subs == SweepAll(old(users), old(subs), quote).subs
      ensures outbox == old(outbox) + SweepAll(old(users), old(subs), quote).sent
    {
      ghost var subs0 := subs;
      ghost var out0 := outbox;
      var i := 0;
      while i < |users|
        invariant 0 <= i <= |users|
        invariant users == old(users)
        invariant Elements(users) <= subs0.Keys
        invariant Elements(users[..i]) <= Elements(users)
        invariant subs == SweepAll(users[..i], subs0, quote).subs
        invariant outbox == out0 + SweepAll(users[..i], subs0, quote).sent
      {
        var u := users[i];
        ElementAt(users, i);
        ElementsPrefix(users, i);
        ElementsPrefix(users, i + 1);
        NotInPrefix(users, i);
        SweepAllAt(users[..i], subs0, quote, u);
        ghost var done := SweepAll(users[..i], subs0, quote).sent;
        ghost var more := SweepList(u, subs0[u], quote).sent;
        CheckUserWith(u, quote);
        assert outbox == (out0 + done) + more;
        SweepAllStep(users, i, subs0, quote);
        ConcatAssoc(out0, done, more);
        i := i + 1;
      }
      assert users[..i] == users;
      assert subs.Keys == subs0.Keys;
    }

    /** The program's price check, with the stubbed lookup `price * 0.88`. */
    method CheckPrices()
      requires Valid()
      modifies this
      ensures Valid()
      ensures users == old(users)
      ensures subs == SweepAll(old(users), old(subs), StubPrice).subs
      ensures outbox == old(outbox) + SweepAll(old(users), old(subs), StubPrice).sent
    {
      CheckPricesWith(StubPrice);
    }
  }
}
