/**
 * How an endpoint picks the network address it talks to a peer on.
 *
 * A fresh peer channel starts out `Discovering`: it sends every packet to
 * all candidate addresses and counts, per sender address, the packets it
 * receives. The packet that takes one address to five receptions settles the
 * channel on the counted address of best (numerically smallest) path
 * category. An `Established` channel keeps the counts it settled with and
 * migrates to a new sender address when that address is not of a worse
 * category than the current one.
 */
module Discovery {
  import opened Wrappers

  /** A socket address (IP address and port); its structure plays no part here. */
  type Addr(==)

  /** `proto::path::Category`; `Rank` is the `as i32` value the code compares. */
  datatype Category = Invalid | Local | Internet | BrokerOrigin

  function Rank(c: Category): (r: int)
    ensures 0 <= r <= 3
  {
    match c
    case Invalid => 0
    case Local => 1
    case Internet => 2
    case BrokerOrigin => 3
  }

  /** The category values a path offered by a peer may carry; any other value is `unreachable!()`. */
  predicate KnownCategory(v: int)
  {
    v == 1 || v == 2 || v == 3
  }

  /** The match in `accept_outgoing` / `accept_incomming` that turns a wire value into a category. */
  function CategoryOf(v: int): (c: Category)
    requires KnownCategory(v)
    ensures Rank(c) == v && c != Invalid
  {
    if v == 1 then Local else if v == 2 then Internet else BrokerOrigin
  }

  /** The `(category, count)` pair kept per address. */
  datatype PathInfo = PathInfo(category: Category, count: nat)

  type Paths = map<Addr, PathInfo>

  datatype AddressMode =
    | Discovering(addrs: Paths)
    | Established(addr: Addr, previous: Paths)

  /** Every count of a discovering channel is still below the settling threshold. */
  predicate Bounded(m: AddressMode)
  {
    m.Discovering? ==> forall a :: a in m.addrs ==> m.addrs[a].count < SettleCount
  }

  /** The number of receptions from one address that settles a discovering channel. */
  const SettleCount: nat := 5

  /**
   * `addrs.entry(addr).or_insert((Internet, 0))` followed by `*count += 1`:
   * the sender gains exactly one reception, an unknown sender entering as
   * Internet, and every other address is untouched.
   */
  function Bump(addrs: Paths, from: Addr): (r: Paths)
    ensures r.Keys == addrs.Keys + {from}
    ensures from in addrs ==> r[from] == addrs[from].(count := addrs[from].count + 1)
    ensures from !in addrs ==> r[from] == PathInfo(Internet, 1)
    ensures forall a :: a in addrs && a != from ==> r[a] == addrs[a]
  {
    var e := if from in addrs then addrs[from] else PathInfo(Internet, 0);
    addrs[from := e.(count := e.count + 1)]
  }

  /** `a` has been heard from, and no address heard from has a smaller category value. */
  predicate IsBest(seen: Paths, a: Addr)
  {
    && a in seen && seen[a].count >= 1
    && forall b :: b in seen && seen[b].count >= 1 ==> Rank(seen[a].category) <= Rank(seen[b].category)
  }

  /**
   * The settling scan: visits the entries in an order the model leaves open
   * (a `HashMap` iteration), keeps the first heard-from entry and replaces it
   * by any later one of strictly smaller category value.
   */
  method BestAddress(seen: Paths) returns (best: Addr)
    requires exists a :: a in seen && seen[a].count >= 1
    ensures IsBest(seen, best)
  {
    var m: Option<Addr> := None;
    var bestest: Option<int> := None;
    var todo := seen.Keys;
    while todo != {}
      invariant todo <= seen.Keys
      invariant m.Some? <==> bestest.Some?
      invariant m.Some? ==> m.value in seen && seen[m.value].count >= 1
      invariant m.Some? ==> bestest.value == Rank(seen[m.value].category)
      invariant m.Some? ==> forall b :: b in seen && b !in todo && seen[b].count >= 1 ==> bestest.value <= Rank(seen[b].category)
      invariant m.None? ==> forall b :: b in seen && b !in todo ==> seen[b].count == 0
      decreases todo
    {
      var a :| a in todo;
      var e := seen[a];
      if e.count >= 1 {
        if bestest.Some? {
          if bestest.value > Rank(e.category) {
            m := Some(a);
            bestest := Some(Rank(e.category));
          }
        } else {
          m := Some(a);
          bestest := Some(Rank(e.category));
        }
      }
      todo := todo - {a};
    }
    best := m.value;
  }

  /** `previous.get(a).unwrap_or(&(Internet, 0)).0`: an address the channel never counted counts as Internet. */
  function CategoryIn(previous: Paths, a: Addr): (c: Category)
    ensures a !in previous ==> c == Internet
  {
    if a in previous then previous[a].category else Internet
  }

  /**
   * The address an established channel uses after a packet from `from` was
   * received (`recvOk` tells whether the channel accepted it): it moves to
   * the sender exactly when the packet was accepted, came from another
   * address, and that address is not of a worse category than the current one.
   */
  function Migrate(cur: Addr, previous: Paths, from: Addr, recvOk: bool): (r: Addr)
    ensures r == cur || r == from
    ensures r != cur <==>
      recvOk && from != cur && Rank(CategoryIn(previous, cur)) >= Rank(CategoryIn(previous, from))
  {
    if recvOk && from != cur && Rank(CategoryIn(previous, cur)) >= Rank(CategoryIn(previous, from))
    then from
    else cur
  }

  /**
   * The address mode after one packet from `from`, for a channel in mode `m`:
   * counting (and settling on `best` when the count reaches five) while
   * discovering, then the migration rule once established. `best` stands for
   * the entry the settling scan picks.
   */
  function Receive(m: AddressMode, from: Addr, recvOk: bool, best: Addr): (r: AddressMode)
    ensures m.Established? ==> r.Established? && r.previous == m.previous
    ensures m.Discovering? && r.Discovering? ==> r.addrs == Bump(m.addrs, from)
    ensures m.Discovering? && r.Established? ==> r.previous == Bump(m.addrs, from)
    ensures r.Established? ==> r.addr == from || (m.Established? && r.addr == m.addr) || (m.Discovering? && r.addr == best)
  {
    match m
    case Discovering(addrs) =>
      var seen := Bump(addrs, from);
      if seen[from].count >= SettleCount then Established(Migrate(best, seen, from, recvOk), seen)
      else Discovering(seen)
    case Established(cur, previous) =>
      Established(Migrate(cur, previous, from, recvOk), previous)
  }

  /** `best` is a pick the settling scan can make for this packet, whenever the packet settles the channel. */
  predicate ScanPick(m: AddressMode, from: Addr, best: Addr)
  {
    m.Discovering? && Bump(m.addrs, from)[from].count >= SettleCount ==> IsBest(Bump(m.addrs, from), best)
  }

  /**
   * What `poll` does to a channel's address mode for one packet from `from`:
   * the count and settling scan, then, if the channel accepted the packet,
   * the migration check. `best` is the address the scan picked, if it ran.
   */
  method ReceiveStep(m: AddressMode, from: Addr, recvOk: bool) returns (r: AddressMode, best: Addr)
    ensures ScanPick(m, from, best)
    ensures r == Receive(m, from, recvOk, best)
  {
    r := m;
    best := from;
    if r.Discovering? {
      var addrs := r.addrs;
      var e := if from in addrs then addrs[from] else PathInfo(Internet, 0);
      addrs := addrs[from := e.(count := e.count + 1)];
      if addrs[from].count >= SettleCount {
        best := BestAddress(addrs);
        r := Established(best, addrs);
      } else {
        r := Discovering(addrs);
      }
    }
    if recvOk && r.Established? && from != r.addr {
      var currentCat := CategoryIn(r.previous, r.addr);
      var migrateCat := CategoryIn(r.previous, from);
      if Rank(currentCat) >= Rank(migrateCat) {
        r := r.(addr := from);
      }
    }
  }

  /** A discovering channel settles on exactly the packet that makes its sender's fifth reception. */
  lemma {:induction false} SettlesAtFifth(addrs: Paths, from: Addr, recvOk: bool, best: Addr)
    requires Bounded(Discovering(addrs))
    ensures Receive(Discovering(addrs), from, recvOk, best).Established?
      <==> from in addrs && addrs[from].count == SettleCount - 1
    ensures Receive(Discovering(addrs), from, recvOk, best).Discovering? ==>
      Receive(Discovering(addrs), from, recvOk, best) == Discovering(Bump(addrs, from))
  {
    var seen := Bump(addrs, from);
    if from in addrs {
      assert addrs[from].count < SettleCount;
      assert seen[from].count == addrs[from].count + 1;
    } else {
      assert seen[from].count == 1;
    }
  }

  /** Counting and settling keep every discovering count below five. */
  lemma {:induction false} ReceiveBounded(m: AddressMode, from: Addr, recvOk: bool, best: Addr)
    requires Bounded(m)
    ensures Bounded(Receive(m, from, recvOk, best))
  {
    if m.Discovering? {
      var seen := Bump(m.addrs, from);
      if seen[from].count < SettleCount {
        forall a | a in seen
          ensures seen[a].count < SettleCount
        {
          if a != from {
            assert a in m.addrs;
          }
        }
      }
    }
  }

  /**
   * Settling lands on a best address: the scan's pick, or the sender when the
   * migration rule then moves there (which it does only for a sender of the
   * same category value). The counts are kept as the `previous` map.
   */
  lemma {:induction false} SettledOnBest(addrs: Paths, from: Addr, recvOk: bool, best: Addr)
    requires Bump(addrs, from)[from].count >= SettleCount
    requires IsBest(Bump(addrs, from), best)
    ensures Receive(Discovering(addrs), from, recvOk, best).Established?
    ensures Receive(Discovering(addrs), from, recvOk, best).previous == Bump(addrs, from)
    ensures IsBest(Bump(addrs, from), Receive(Discovering(addrs), from, recvOk, best).addr)
  {
    var seen := Bump(addrs, from);
    var r := Migrate(best, seen, from, recvOk);
    if r != best {
      assert r == from;
      assert Rank(seen[best].category) <= Rank(seen[from].category);
      assert Rank(seen[from].category) <= Rank(seen[best].category);
    }
  }

  /**
   * An established channel keeps its counts, and the category of its address
   * (as those counts record it) never gets worse.
   */
  lemma {:induction false} EstablishedNeverWorsens(cur: Addr, previous: Paths, from: Addr, recvOk: bool, best: Addr)
    ensures Receive(Established(cur, previous), from, recvOk, best).Established?
    ensures Receive(Established(cur, previous), from, recvOk, best).previous == previous
    ensures Rank(CategoryIn(previous, Receive(Established(cur, previous), from, recvOk, best).addr))
      <= Rank(CategoryIn(previous, cur))
  {
  }

  /**
   * With no recorded counts (the broker channel's `Established(addr, {})`),
   * every accepted packet from another address moves the channel there.
   */
  lemma {:induction false} FollowsSenderWithoutCounts(cur: Addr, from: Addr)
    ensures Migrate(cur, map[], from, true) == from
  {
  }

  /** A path a peer offers for this channel: its wire category value and its address. */
  datatype Path = Path(category: int, addr: Addr)

  predicate KnownCategories(ps: seq<Path>)
  {
    forall i :: 0 <= i < |ps| ==> KnownCategory(ps[i].category)
  }

  /** The `paths` map built by inserting every offered path with count 0; a later path for the same address wins. */
  function OfferedPaths(ps: seq<Path>): (r: Paths)
    requires KnownCategories(ps)
    ensures forall a :: a in r ==> r[a].count == 0 && r[a].category != Invalid
  {
    if ps == [] then map[]
    else
      var last := ps[|ps| - 1];
      OfferedPaths(ps[..|ps| - 1])[last.addr := PathInfo(CategoryOf(last.category), 0)]
  }

  /** The offered map holds exactly the offered addresses, none of them counted yet nor Invalid. */
  lemma {:induction false} OfferedPathsKeys(ps: seq<Path>)
    requires KnownCategories(ps)
    ensures OfferedPaths(ps).Keys == set p | p in ps :: p.addr
    ensures forall a :: a in OfferedPaths(ps) ==>
      OfferedPaths(ps)[a].count == 0 && OfferedPaths(ps)[a].category != Invalid
  {
    if ps != [] {
      var p := ps[..|ps| - 1];
      OfferedPathsKeys(p);
      assert ps == p + [ps[|ps| - 1]];
      assert (set x | x in ps :: x.addr) == (set x | x in p :: x.addr) + {ps[|ps| - 1].addr};
    }
  }

  /** The entry for an offered address carries the category of the last path offering it. */
  lemma {:induction false} OfferedPathsLastWins(ps: seq<Path>, i: nat)
    requires KnownCategories(ps)
    requires i < |ps|
    requires forall j :: i < j < |ps| ==> ps[j].addr != ps[i].addr
    ensures ps[i].addr in OfferedPaths(ps)
    ensures OfferedPaths(ps)[ps[i].addr] == PathInfo(CategoryOf(ps[i].category), 0)
  {
    if i < |ps| - 1 {
      var p := ps[..|ps| - 1];
      assert p[i] == ps[i];
      OfferedPathsLastWins(p, i);
    }
  }

  /** The loop of `accept_outgoing` / `accept_incomming` that fills `paths`. */
  method BuildPaths(ps: seq<Path>) returns (paths: Paths)
    requires KnownCategories(ps)
    ensures paths == OfferedPaths(ps)
  {
    paths := map[];
    for i := 0 to |ps|
      invariant paths == OfferedPaths(ps[..i])
    {
      assert ps[..i + 1][..i] == ps[..i];
      paths := paths[ps[i].addr := PathInfo(CategoryOf(ps[i].category), 0)];
    }
    assert ps[..|ps|] == ps;
  }
}
