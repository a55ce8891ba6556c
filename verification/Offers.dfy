/** Who performs all the chosen services, for how long and how much. The slices
    are filtered through offers[:0], over their own backing array. */
module Offers {
  import opened Wrappers
  import opened Intervals
  import opened Sorting
  import opened Slices
  import opened Catalog

  const MAX_SERVICES := 5

  datatype OffersError = ServiceUnavailable | PriceError(error: MoneyError)

  datatype Offer = Offer(staff: int, duration: int, price: Money)

  function HasId(id: int): MenuItem -> bool { (m: MenuItem) => m.id == id }

  function IsBy(staff: int): Performer -> bool { (p: Performer) => p.staff == staff }

  /** The service's place on the menu, or -1. */
  function ItemIndex(menu: seq<MenuItem>, id: int): (i: int)
    ensures -1 <= i < |menu|
  {
    IndexWhere(HasId(id), menu)
  }

  function PerformerIndex(ps: seq<Performer>, staff: int): int { IndexWhere(IsBy(staff), ps) }

  predicate AllOnMenu(services: seq<int>, menu: seq<MenuItem>) {
    forall k :: 0 <= k < |services| ==> ItemIndex(menu, services[k]) >= 0
  }

  /** The barber's version of the service, if they perform it here. */
  function Version(menu: seq<MenuItem>, service: int, staff: int): Option<Performer> {
    var i := ItemIndex(menu, service);
    if i < 0 then None
    else
      var j := PerformerIndex(menu[i].performers, staff);
      if j < 0 then None else Some(menu[i].performers[j])
  }

  predicate PerformsAll(services: seq<int>, menu: seq<MenuItem>, staff: int) {
    forall k :: 0 <= k < |services| ==> Version(menu, services[k], staff).Some?
  }

  /** The sums over the chosen services, in the barber's own versions. */
  function TotalDuration(services: seq<int>, menu: seq<MenuItem>, staff: int): int
    requires PerformsAll(services, menu, staff)
  {
    if services == [] then 0
    else
      var n := |services| - 1;
      TotalDuration(services[..n], menu, staff) + Version(menu, services[n], staff).value.duration
  }

  function TotalPrice(services: seq<int>, menu: seq<MenuItem>, staff: int): int
    requires PerformsAll(services, menu, staff)
  {
    if services == [] then 0
    else
      var n := |services| - 1;
      TotalPrice(services[..n], menu, staff) + Version(menu, services[n], staff).value.price.amount
  }

  lemma VersionValid(menu: seq<MenuItem>, service: int, staff: int)
    requires ValidMenu(menu)
    ensures var v := Version(menu, service, staff);
            v.Some? ==> v.value.staff == staff && ValidDuration(v.value.duration) && ValidPrice(v.value.price)
  {
  }

  /** The catalog's caps bound every total: no sum of prices can overflow. */
  lemma {:induction false} TotalsBounded(services: seq<int>, menu: seq<MenuItem>, staff: int)
    requires ValidMenu(menu) && PerformsAll(services, menu, staff)
    ensures 0 <= TotalPrice(services, menu, staff) <= |services| * MAX_PRICE
    ensures |services| * MIN_DURATION <= TotalDuration(services, menu, staff) <= |services| * MAX_DURATION
    decreases |services|
  {
    if services != [] {
      TotalsBounded(services[..|services| - 1], menu, staff);
      VersionValid(menu, services[|services| - 1], staff);
    }
  }

  ghost predicate IsOffer(services: seq<int>, menu: seq<MenuItem>, o: Offer) {
    && PerformsAll(services, menu, o.staff)
    && o.duration == TotalDuration(services, menu, o.staff)
    && o.price.amount == TotalPrice(services, menu, o.staff) && o.price.currency == SAR
  }

  ghost predicate Offered(staff: int, s: seq<Offer>) { exists o :: o in s && o.staff == staff }

  /** Exactly the barbers who perform every one of the services, once each. */
  ghost predicate OfferSet(services: seq<int>, menu: seq<MenuItem>, s: seq<Offer>) {
    && OneEach(s)
    && (forall o :: o in s ==> IsOffer(services, menu, o))
    && (forall staff :: PerformsAll(services, menu, staff) ==> Offered(staff, s))
  }

  /** The map offersFor fills per service. */
  method ByStaff(ps: seq<Performer>) returns (m: map<int, Performer>)
    requires forall i, j :: 0 <= i < |ps| && 0 <= j < |ps| && i != j ==> ps[i].staff != ps[j].staff
    ensures forall staff :: staff in m <==> PerformerIndex(ps, staff) >= 0
    ensures forall staff :: staff in m ==> m[staff] == ps[PerformerIndex(ps, staff)]
  {
    m := map[];
    for n := 0 to |ps|
      invariant forall staff :: staff in m <==> exists i :: 0 <= i < n && ps[i].staff == staff
      invariant forall i :: 0 <= i < n ==> ps[i].staff in m && m[ps[i].staff] == ps[i]
    {
      m := m[ps[n].staff := ps[n]];
    }
  }

  predicate Fits(s: seq<Offer>, byStaff: map<int, Performer>) {
    forall i :: 0 <= i < |s| && s[i].staff in byStaff ==> s[i].price.Add(byStaff[s[i].staff].price).Ok?
  }

  /** The offers whose barber performs one more service, with it added in. */
  function Kept(s: seq<Offer>, byStaff: map<int, Performer>): seq<Offer>
    requires Fits(s, byStaff)
  {
    if s == [] then []
    else
      var o := s[|s| - 1];
      Kept(s[..|s| - 1], byStaff) +
      if o.staff in byStaff then
        [Offer(o.staff, o.duration + byStaff[o.staff].duration, o.price.Add(byStaff[o.staff].price).value)]
      else []
  }

  /** kept := offers[:0]: what is written never overtakes what is still to be read. */
  method KeepPerformers(offers: array<Offer>, count: nat, byStaff: map<int, Performer>)
    returns (kept: nat, err: Option<MoneyError>)
    requires count <= offers.Length
    modifies offers
    ensures err.None? <==> Fits(old(offers[..count]), byStaff)
    ensures err.None? ==> kept <= count && offers[..kept] == Kept(old(offers[..count]), byStaff)
  {
    ghost var was := offers[..count];
    kept := 0;
    for i := 0 to count
      invariant kept <= i
      invariant offers[i..count] == was[i..]
      invariant Fits(was[..i], byStaff)
      invariant offers[..kept] == Kept(was[..i], byStaff)
    {
      var o := offers[i];
      assert o == was[i] && was[..i + 1][..i] == was[..i];
      if o.staff in byStaff {
        var price := o.price.Add(byStaff[o.staff].price);
        if price.Err? {
          return 0, Some(price.error);
        }
        offers[kept] := Offer(o.staff, o.duration + byStaff[o.staff].duration, price.value);
        kept := kept + 1;
      }
      assert offers[i + 1..count] == offers[i..count][1..];
    }
    assert was[..count] == was;
    return kept, None;
  }

  predicate Extends(k: Offer, o: Offer, byStaff: map<int, Performer>) {
    && k.staff == o.staff && o.staff in byStaff
    && k.duration == o.duration + byStaff[o.staff].duration
    && k.price.amount == o.price.amount + byStaff[o.staff].price.amount && k.price.currency == o.price.currency
  }

  ghost predicate OneEach(s: seq<Offer>) {
    forall i, j :: 0 <= i < |s| && 0 <= j < |s| && i != j ==> s[i].staff != s[j].staff
  }

  /** k is one of s, with the service added in. */
  ghost predicate From(k: Offer, s: seq<Offer>, byStaff: map<int, Performer>) {
    exists j :: 0 <= j < |s| && Extends(k, s[j], byStaff)
  }

  /** o, with the service added in, is one of ks. */
  ghost predicate Into(o: Offer, ks: seq<Offer>, byStaff: map<int, Performer>) {
    exists i :: 0 <= i < |ks| && Extends(ks[i], o, byStaff)
  }

  /** What is kept are barbers of s who perform it too, and all of those. */
  lemma {:induction false} KeptMembers(s: seq<Offer>, byStaff: map<int, Performer>)
    requires Fits(s, byStaff) && OneEach(s)
    ensures OneEach(Kept(s, byStaff))
    ensures forall k :: k in Kept(s, byStaff) ==> From(k, s, byStaff)
    ensures forall o :: o in s && o.staff in byStaff ==> Into(o, Kept(s, byStaff), byStaff)
    decreases |s|
  {
    if s != [] {
      var front, o := s[..|s| - 1], s[|s| - 1];
      KeptMembers(front, byStaff);
      var k, f := Kept(s, byStaff), Kept(front, byStaff);
      assert s == front + [o];
      forall x | x in f ensures From(x, s, byStaff) && x.staff != o.staff {
        assert From(x, front, byStaff);
        var j :| 0 <= j < |front| && Extends(x, front[j], byStaff);
        assert s[j] == front[j];
      }
      forall x | x in front && x.staff in byStaff ensures Into(x, k, byStaff) {
        assert Into(x, f, byStaff);
        var i :| 0 <= i < |f| && Extends(f[i], x, byStaff);
        assert k[i] == f[i];
      }
      if o.staff in byStaff {
        assert Extends(k[|f|], s[|s| - 1], byStaff);
      }
    }
  }

  /** byStaff is who performs the service, each in their own version. */
  ghost predicate Serves(byStaff: map<int, Performer>, menu: seq<MenuItem>, service: int) {
    forall staff :: (staff in byStaff <==> Version(menu, service, staff).Some?)
                    && (staff in byStaff ==> byStaff[staff] == Version(menu, service, staff).value)
  }

  lemma TotalsStep(services: seq<int>, menu: seq<MenuItem>, n: nat, staff: int)
    requires n < |services|
    ensures PerformsAll(services[..n + 1], menu, staff) <==>
            PerformsAll(services[..n], menu, staff) && Version(menu, services[n], staff).Some?
    ensures PerformsAll(services[..n + 1], menu, staff) ==>
            var v := Version(menu, services[n], staff).value;
            && TotalDuration(services[..n + 1], menu, staff) == TotalDuration(services[..n], menu, staff) + v.duration
            && TotalPrice(services[..n + 1], menu, staff) == TotalPrice(services[..n], menu, staff) + v.price.amount
  {
    var more := services[..n + 1];
    assert more[..n] == services[..n] && more[n] == services[n];
    if PerformsAll(more, menu, staff) {
      assert forall k :: 0 <= k < n ==> services[..n][k] == more[k];
    }
  }

  lemma FirstService(services: seq<int>, menu: seq<MenuItem>, s: seq<Offer>)
    requires ValidMenu(menu) && services != [] && ItemIndex(menu, services[0]) >= 0
    requires var ps := menu[ItemIndex(menu, services[0])].performers;
             |s| == |ps| && forall i :: 0 <= i < |ps| ==> s[i] == Offer(ps[i].staff, ps[i].duration, ps[i].price)
    ensures OfferSet(services[..1], menu, s)
  {
    var ps := menu[ItemIndex(menu, services[0])].performers;
    forall o | o in s ensures IsOffer(services[..1], menu, o) {
      var i :| 0 <= i < |s| && s[i] == o;
      assert PerformerIndex(ps, o.staff) == i && Version(menu, services[0], o.staff) == Some(ps[i]);
      TotalsStep(services, menu, 0, o.staff);
      VersionValid(menu, services[0], o.staff);
    }
    forall staff | PerformsAll(services[..1], menu, staff) ensures Offered(staff, s) {
      TotalsStep(services, menu, 0, staff);
      assert s[PerformerIndex(ps, staff)].staff == staff;
    }
  }

  lemma NextServiceFits(services: seq<int>, menu: seq<MenuItem>, n: nat, s: seq<Offer>, byStaff: map<int, Performer>)
    requires ValidMenu(menu) && n < |services| <= MAX_SERVICES
    requires OfferSet(services[..n], menu, s) && Serves(byStaff, menu, services[n])
    ensures Fits(s, byStaff)
  {
    forall i | 0 <= i < |s| && s[i].staff in byStaff ensures s[i].price.Add(byStaff[s[i].staff].price).Ok? {
      assert IsOffer(services[..n], menu, s[i]);
      TotalsBounded(services[..n], menu, s[i].staff);
      VersionValid(menu, services[n], s[i].staff);
    }
  }

  lemma NextService(services: seq<int>, menu: seq<MenuItem>, n: nat, s: seq<Offer>, byStaff: map<int, Performer>)
    requires ValidMenu(menu) && n < |services| <= MAX_SERVICES
    requires OfferSet(services[..n], menu, s) && Serves(byStaff, menu, services[n])
    requires Fits(s, byStaff)
    ensures OfferSet(services[..n + 1], menu, Kept(s, byStaff))
  {
    KeptMembers(s, byStaff);
    var ks := Kept(s, byStaff);
    forall k | k in ks ensures IsOffer(services[..n + 1], menu, k) {
      assert From(k, s, byStaff);
      var j :| 0 <= j < |s| && Extends(k, s[j], byStaff);
      assert IsOffer(services[..n], menu, s[j]);
      TotalsStep(services, menu, n, k.staff);
    }
    forall staff | PerformsAll(services[..n + 1], menu, staff) ensures Offered(staff, ks) {
      TotalsStep(services, menu, n, staff);
      assert Offered(staff, s);
      var o :| o in s && o.staff == staff;
      assert Into(o, ks, byStaff);
      var i :| 0 <= i < |ks| && Extends(ks[i], o, byStaff);
      assert ks[i] in ks;
    }
  }

  predicate IdEarlier(a: Offer, b: Offer) { a.staff < b.staff }

  predicate IdNoLater(a: Offer, b: Offer) { a.staff <= b.staff }

  ghost predicate ById(s: seq<Offer>) { forall i, j :: 0 <= i < j < |s| ==> s[i].staff < s[j].staff }

  lemma SortedById(services: seq<int>, menu: seq<MenuItem>, s: seq<Offer>, sorted: seq<Offer>)
    requires OfferSet(services, menu, s) && multiset(s) == multiset(sorted) && SortedBy(IdNoLater, sorted)
    ensures OfferSet(services, menu, sorted) && ById(sorted)
  {
    PermutationMembers(s, sorted);
    var differ := (a: Offer, b: Offer) => a.staff != b.staff;
    assert Pairwise(differ, s);
    PairwisePermuted(differ, s, sorted);
    forall i, j | 0 <= i < |sorted| && 0 <= j < |sorted| && i != j ensures sorted[i].staff != sorted[j].staff {
      assert differ(sorted[i], sorted[j]);
    }
    forall i, j | 0 <= i < j < |sorted| ensures sorted[i].staff < sorted[j].staff {
      assert IdNoLater(sorted[i], sorted[j]);
    }
    forall staff | PerformsAll(services, menu, staff) ensures Offered(staff, sorted) { assert Offered(staff, s); }
  }

  /** The first service: everyone who performs it is offered. */
  method FirstOffers(services: seq<int>, menu: seq<MenuItem>) returns (offers: array<Offer>, count: nat)
    requires ValidMenu(menu) && services != [] && ItemIndex(menu, services[0]) >= 0
    ensures fresh(offers) && count <= offers.Length && OfferSet(services[..1], menu, offers[..count])
  {
    var ps := menu[ItemIndex(menu, services[0])].performers;
    offers := new Offer[|ps|](k requires 0 <= k < |ps| => Offer(ps[k].staff, ps[k].duration, ps[k].price));
    count := |ps|;
    FirstService(services, menu, offers[..count]);
  }

  /** A later service: only those who perform it too stay, and the price never
      overflows. */
  method NextOffers(services: seq<int>, menu: seq<MenuItem>, n: nat, offers: array<Offer>, count: nat)
    returns (kept: nat)
    requires ValidMenu(menu) && n < |services| <= MAX_SERVICES && ItemIndex(menu, services[n]) >= 0
    requires count <= offers.Length && OfferSet(services[..n], menu, offers[..count])
    modifies offers
    ensures kept <= count && OfferSet(services[..n + 1], menu, offers[..kept])
  {
    var item := menu[ItemIndex(menu, services[n])];
    assert ValidItem(item);
    var byStaff := ByStaff(item.performers);
    ghost var was := offers[..count];
    NextServiceFits(services, menu, n, was, byStaff);
    var err;
    kept, err := KeepPerformers(offers, count, byStaff);
    assert err.None?;
    NextService(services, menu, n, was, byStaff);
  }

  /** The offers after n services; before the first there are none yet. */
  ghost predicate Progress(services: seq<int>, menu: seq<MenuItem>, n: nat, s: seq<Offer>)
    requires n <= |services|
  {
    n > 0 ==> OfferSet(services[..n], menu, s)
  }

  lemma OneMoreOnMenu(services: seq<int>, menu: seq<MenuItem>, n: nat)
    requires n < |services| && AllOnMenu(services[..n], menu)
    ensures AllOnMenu(services[..n + 1], menu) <==> ItemIndex(menu, services[n]) >= 0
    ensures ItemIndex(menu, services[n]) < 0 ==> !AllOnMenu(services, menu)
  {
    assert services[..n + 1] == services[..n] + [services[n]];
  }

  /** One turn of the loop over services. */
  method AddService(services: seq<int>, menu: seq<MenuItem>, n: nat, offers: array<Offer>, count: nat)
    returns (next: array<Offer>, kept: nat)
    requires ValidMenu(menu) && n < |services| <= MAX_SERVICES && ItemIndex(menu, services[n]) >= 0
    requires count <= offers.Length && Progress(services, menu, n, offers[..count])
    modifies offers
    ensures (next == offers || fresh(next)) && kept <= next.Length && Progress(services, menu, n + 1, next[..kept])
  {
    if n == 0 {
      next, kept := FirstOffers(services, menu);
    } else {
      next := offers;
      kept := NextOffers(services, menu, n, offers, count);
    }
  }

  /** A menu that passed the catalog's checks is assumed, nothing else: a service
      that is not on it is the one error left. */
  method OffersFor(services: seq<int>, menu: seq<MenuItem>) returns (r: Result<array<Offer>, OffersError>)
    requires ValidMenu(menu) && 1 <= |services| <= MAX_SERVICES
    ensures r.Err? <==> !AllOnMenu(services, menu)
    ensures r.Err? ==> r.error == ServiceUnavailable
    ensures r.Ok? ==> fresh(r.value) && OfferSet(services, menu, r.value[..]) && ById(r.value[..])
  {
    var offers := new Offer[0];
    var count: nat := 0;
    for n := 0 to |services|
      invariant fresh(offers) && count <= offers.Length
      invariant AllOnMenu(services[..n], menu)
      invariant Progress(services, menu, n, offers[..count])
    {
      OneMoreOnMenu(services, menu, n);
      if ItemIndex(menu, services[n]) < 0 {
        return Err(ServiceUnavailable);
      }
      offers, count := AddService(services, menu, n, offers, count);
    }
    assert services[..|services|] == services;
    var sorted := SortOffers(services, menu, offers, count);
    return Ok(sorted);
  }

  /** The offers kept, sorted by the barber's ID. */
  method SortOffers(services: seq<int>, menu: seq<MenuItem>, offers: array<Offer>, count: nat)
      returns (sorted: array<Offer>)
    requires ValidMenu(menu) && count <= offers.Length
    requires OfferSet(services, menu, offers[..count])
    ensures fresh(sorted) && OfferSet(services, menu, sorted[..]) && ById(sorted[..])
  {
    sorted := Clone(offers[..count]);
    SortFunc(sorted, IdNoLater);
    SortedById(services, menu, offers[..count], sorted[..]);
  }

  function ActiveIn(active: set<int>): Offer -> bool { (o: Offer) => o.staff in active }

  /** The offers of barbers who are active staff here. */
  function Staffed(s: seq<Offer>, active: set<int>): seq<Offer> { Filter(ActiveIn(active), s) }

  lemma StaffedMembers(s: seq<Offer>, active: set<int>)
    ensures forall o :: o in Staffed(s, active) <==> o in s && o.staff in active
    ensures ById(s) ==> ById(Staffed(s, active))
  {
    FilterMembers(ActiveIn(active), s);
    if ById(s) { FilterInOrder(ActiveIn(active), s, IdEarlier); }
  }

  method StillThere(offers: array<Offer>, active: set<int>) returns (kept: nat)
    modifies offers
    ensures kept <= offers.Length && offers[..kept] == Staffed(old(offers[..]), active)
  {
    ghost var was := offers[..];
    kept := 0;
    for i := 0 to offers.Length
      invariant kept <= i
      invariant offers[i..] == was[i..]
      invariant offers[..kept] == Staffed(was[..i], active)
    {
      var o := offers[i];
      assert o == was[i];
      FilterStep(ActiveIn(active), was, i);
      if o.staff in active {
        offers[kept] := o;
        kept := kept + 1;
      }
      assert offers[i + 1..] == offers[i..][1..];
    }
    assert was[..offers.Length] == was;
  }

  datatype Item = Item(service: int, duration: int, price: Money)

  /** Snapshots of what the barber does: no index is ever out of range. */
  method ItemsFor(services: seq<int>, menu: seq<MenuItem>, staff: int) returns (items: seq<Item>)
    requires PerformsAll(services, menu, staff)
    ensures items == ItemsOf(services, menu, staff)
  {
    items := [];
    for n := 0 to |services|
      invariant |items| == n
      invariant forall k :: 0 <= k < n ==> items[k] == ItemOf(services[k], menu, staff)
    {
      var m := menu[ItemIndex(menu, services[n])];
      var p := m.performers[PerformerIndex(m.performers, staff)];
      items := items + [Item(services[n], p.duration, p.price)];
    }
  }

  /** Each item is the chosen service as somebody on the menu under its ID performs it:
      this barber, with their own duration and price. */
  lemma ItemsMean(services: seq<int>, menu: seq<MenuItem>, staff: int, k: nat)
    requires ValidMenu(menu) && PerformsAll(services, menu, staff) && k < |services|
    ensures |ItemsOf(services, menu, staff)| == |services|
    ensures var item := ItemsOf(services, menu, staff)[k];
            && item.service == services[k]
            && exists i, j :: 0 <= i < |menu| && 0 <= j < |menu[i].performers| && menu[i].id == services[k]
                              && menu[i].performers[j] == Performer(staff, item.duration, item.price)
  {
    var i := ItemIndex(menu, services[k]);
    var j := PerformerIndex(menu[i].performers, staff);
    assert Version(menu, services[k], staff) == Some(menu[i].performers[j]);
    VersionValid(menu, services[k], staff);
  }

  function ItemOf(service: int, menu: seq<MenuItem>, staff: int): Item
    requires Version(menu, service, staff).Some?
  {
    Item(service, Version(menu, service, staff).value.duration, Version(menu, service, staff).value.price)
  }

  function ItemsOf(services: seq<int>, menu: seq<MenuItem>, staff: int): seq<Item>
    requires PerformsAll(services, menu, staff)
  {
    seq(|services|, k requires 0 <= k < |services| => ItemOf(services[k], menu, staff))
  }
}
