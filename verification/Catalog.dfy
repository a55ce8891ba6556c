/** Prices, and what a service's list of performers guarantees to booking. */
module Catalog {
  import opened Wrappers
  import opened Intervals
  import opened Sorting

  const MAX_INT64 := 0x7fff_ffff_ffff_ffff
  const MIN_INT64 := -0x8000_0000_0000_0000

  type int64 = i: int | MIN_INT64 <= i <= MAX_INT64

  datatype Currency = SAR | OtherCurrency(code: string)

  datatype MoneyError = CurrencyMismatch | MoneyOverflow

  datatype Money = Money(amount: int64, currency: Currency) {

    /** Exact, or refused: never a wrapped sum. */
    function Add(o: Money): (r: Result<Money, MoneyError>)
      ensures r.Ok? <==> currency == o.currency && MIN_INT64 <= amount + o.amount <= MAX_INT64
      ensures r.Ok? ==> r.value.amount == amount + o.amount && r.value.currency == currency
    {
      if currency != o.currency then Err(CurrencyMismatch)
      else if (o.amount > 0 && amount > MAX_INT64 - o.amount) || (o.amount < 0 && amount < MIN_INT64 - o.amount) then
        Err(MoneyOverflow)
      else Ok(Money(amount + o.amount, currency))
    }
  }

  const MAX_OFFERINGS := 100
  const MIN_DURATION := 5 * MINUTE
  const MAX_DURATION := 8 * HOUR
  const DURATION_STEP := 5 * MINUTE
  const MAX_PRICE := 10_000_000

  /** Staff are compared by their IDs' text; 0 is the zero ID. */
  datatype Offering = Offering(staff: int, price: Option<Money>, duration: Option<int>) {
    function PriceOr(service: Money): Money { if price.Some? then price.value else service }

    function DurationOr(service: int): int { if duration.Some? then duration.value else service }

    /** Their own version of the service. */
    function Performed(service: int, usual: Money): Performer {
      Performer(staff, DurationOr(service), PriceOr(usual))
    }
  }

  predicate ValidDuration(d: int) { MIN_DURATION <= d <= MAX_DURATION && d % DURATION_STEP == 0 }

  predicate ValidPrice(p: Money) { p.currency == SAR && 0 <= p.amount <= MAX_PRICE }

  /** 5 to 480 minutes in steps of 5, and up to 100,000 riyals. */
  lemma CapsMean(d: int, p: Money)
    ensures ValidDuration(d) <==> exists k :: 1 <= k <= 96 && d == 5 * k * MINUTE
    ensures ValidPrice(p) <==> p.currency == SAR && 0 <= p.amount <= 100_000 * 100
  {
    if ValidDuration(d) {
      var k := d / DURATION_STEP;
      assert d == 5 * k * MINUTE;
    }
    if k :| 1 <= k <= 96 && d == 5 * k * MINUTE { assert d == DURATION_STEP * k; }
  }

  predicate ValidOffering(o: Offering) {
    && o.staff != 0
    && (o.duration.Some? ==> ValidDuration(o.duration.value))
    && (o.price.Some? ==> ValidPrice(o.price.value))
  }

  datatype OfferingsError = TooManyOfferings | UnknownStaff | DuplicateOffering | InvalidDuration | InvalidPrice

  /** No one is listed twice. */
  ghost predicate OnePerStaff(s: seq<Offering>) {
    forall i, j :: 0 <= i < |s| && 0 <= j < |s| && i != j ==> s[i].staff != s[j].staff
  }

  ghost predicate AcceptableOfferings(s: seq<Offering>) {
    |s| <= MAX_OFFERINGS && OnePerStaff(s) && forall i :: 0 <= i < |s| ==> ValidOffering(s[i])
  }

  predicate StaffNoLater(a: Offering, b: Offering) { a.staff <= b.staff }

  lemma OfferingsPermuted(s: seq<Offering>, t: seq<Offering>)
    requires multiset(s) == multiset(t)
    requires AcceptableOfferings(s)
    ensures AcceptableOfferings(t)
  {
    PermutationMembers(s, t);
    forall i | 0 <= i < |t| ensures ValidOffering(t[i]) { assert t[i] in s; }
    var differ := (a: Offering, b: Offering) => a.staff != b.staff;
    assert Pairwise(differ, s);
    PairwisePermuted(differ, s, t);
    forall i, j | 0 <= i < |t| && 0 <= j < |t| && i != j ensures t[i].staff != t[j].staff {
      assert differ(t[i], t[j]);
    }
  }

  lemma SameTwice(s: seq<Offering>, t: seq<Offering>, i: nat)
    requires multiset(s) == multiset(t) && 0 < i < |t| && t[i - 1].staff == t[i].staff
    ensures !OnePerStaff(s)
  {
    if OnePerStaff(s) {
      var differ := (a: Offering, b: Offering) => a.staff != b.staff;
      assert Pairwise(differ, s);
      PairwisePermuted(differ, s, t);
    }
  }

  /** Scanning sorted neighbours finds every repetition. */
  method CheckOfferings(offerings: seq<Offering>) returns (r: Result<seq<Offering>, OfferingsError>)
    ensures r.Ok? <==> AcceptableOfferings(offerings)
    ensures r == Err(TooManyOfferings) <==> |offerings| > MAX_OFFERINGS
    ensures r == Err(UnknownStaff) ==> exists o :: o in offerings && o.staff == 0
    ensures r == Err(DuplicateOffering) ==> !OnePerStaff(offerings)
    ensures r == Err(InvalidDuration) ==>
            exists o :: o in offerings && o.duration.Some? && !ValidDuration(o.duration.value)
    ensures r == Err(InvalidPrice) ==> exists o :: o in offerings && o.price.Some? && !ValidPrice(o.price.value)
    ensures r.Ok? ==> multiset(r.value) == multiset(offerings)
    ensures r.Ok? ==> forall i, j :: 0 <= i < j < |r.value| ==> r.value[i].staff < r.value[j].staff
  {
    if |offerings| > MAX_OFFERINGS {
      return Err(TooManyOfferings);
    }
    var out := Clone(offerings);
    SortFunc(out, StaffNoLater);
    var sorted := out[..];
    PermutationMembers(offerings, sorted);
    if AcceptableOfferings(offerings) { OfferingsPermuted(offerings, sorted); }
    for i := 0 to |sorted|
      invariant forall k :: 0 <= k < i ==> ValidOffering(sorted[k])
      invariant forall k, l :: 0 <= k < l < i ==> sorted[k].staff < sorted[l].staff
    {
      var o := sorted[i];
      assert o in offerings;
      if o.staff == 0 {
        return Err(UnknownStaff);
      }
      if i > 0 && sorted[i - 1].staff == o.staff {
        SameTwice(offerings, sorted, i);
        return Err(DuplicateOffering);
      }
      if o.duration.Some? && !ValidDuration(o.duration.value) {
        return Err(InvalidDuration);
      }
      if o.price.Some? && !ValidPrice(o.price.value) {
        return Err(InvalidPrice);
      }
      assert forall k :: 0 <= k < i ==> StaffNoLater(sorted[k], sorted[i]);
    }
    assert AcceptableOfferings(sorted);
    OfferingsPermuted(sorted, offerings);
    return Ok(sorted);
  }

  /** One barber's version of a service. */
  datatype Performer = Performer(staff: int, duration: int, price: Money)

  datatype MenuItem = MenuItem(id: int, performers: seq<Performer>)

  /** What booking relies on: no barber twice, durations and prices within the caps. */
  ghost predicate ValidItem(m: MenuItem) {
    && (forall i, j :: 0 <= i < |m.performers| && 0 <= j < |m.performers| && i != j ==>
         m.performers[i].staff != m.performers[j].staff)
    && (forall i :: 0 <= i < |m.performers| ==>
          ValidDuration(m.performers[i].duration) && ValidPrice(m.performers[i].price))
  }

  ghost predicate ValidMenu(menu: seq<MenuItem>) { forall i :: 0 <= i < |menu| ==> ValidItem(menu[i]) }

  /** A service as the menu shows it: each offering's own price and duration, or the service's. */
  method MenuItemFor(id: int, price: Money, duration: int, offerings: seq<Offering>) returns (m: MenuItem)
    requires ValidPrice(price) && ValidDuration(duration) && AcceptableOfferings(offerings)
    ensures ValidItem(m) && m.id == id
    ensures |m.performers| == |offerings|
    ensures forall i :: 0 <= i < |offerings| ==>
              m.performers[i] == offerings[i].Performed(duration, price) && m.performers[i].staff == offerings[i].staff
    ensures forall i :: 0 <= i < |offerings| ==>
              m.performers[i].price == if offerings[i].price.Some? then offerings[i].price.value else price
    ensures forall i :: 0 <= i < |offerings| ==>
              m.performers[i].duration == if offerings[i].duration.Some? then offerings[i].duration.value else duration
  {
    var performers := [];
    for n := 0 to |offerings|
      invariant |performers| == n
      invariant forall i :: 0 <= i < n ==>
                  performers[i] == offerings[i].Performed(duration, price)
    {
      var o := offerings[n];
      performers := performers + [Performer(o.staff, o.DurationOr(duration), o.PriceOr(price))];
    }
    m := MenuItem(id, performers);
  }
}
