/** Catalogue filters: which products a query selects, and the counts shown beside each filter option. */
module Facets {
  import opened Wrappers
  import Decimal

  datatype Card = Card(
    pokemonType: Option<string>, setName: string, setCode: Option<string>, rarity: string, condition: string, language: string,
    finish: Option<string>, edition: Option<string>, gradingCompany: Option<string>, grade: Option<string>)

  datatype Product = Product(kind: string, price: int, available: nat, card: Option<Card>)

  datatype Facet = Kind | PokemonType | SetName | SetCode | Rarity | Condition | Language | Finish | Edition | GradingCompany

  /** `selected` holds the chosen options of a facet; the set code takes at most one. `text` is the free-text search. */
  datatype Query = Query(
    selected: map<Facet, seq<string>>, minPrice: Option<int>, maxPrice: Option<int>,
    inStock: Option<bool>, graded: Option<bool>, text: Product -> bool)

  function Selection(q: Query, f: Facet): seq<string> { if f in q.selected then q.selected[f] else [] }

  /** The stored value of a facet; products without a card have none except their kind. */
  function ValueOf(p: Product, f: Facet): Option<string> {
    if f == Kind then Some(p.kind) else
    match p.card
    case None => None
    case Some(c) =>
      match f
      case PokemonType => c.pokemonType
      case SetName => Some(c.setName)
      case SetCode => c.setCode
      case Rarity => Some(c.rarity)
      case Condition => Some(c.condition)
      case Language => Some(c.language)
      case Finish => c.finish
      case Edition => c.edition
      case _ => c.gradingCompany
  }

  /** Optional columns are tested for being present and not empty before they are compared. */
  predicate MatchesFacet(p: Product, q: Query, f: Facet) {
    var chosen := Selection(q, f);
    var value := ValueOf(p, f);
    chosen != [] ==>
      && value.Some? && value.value in chosen
      && (f in {PokemonType, SetCode, Finish, Edition, GradingCompany} ==> value.value != "")
  }

  predicate IsGraded(p: Product) {
    p.card.Some? && p.card.value.gradingCompany.Some? && p.card.value.grade.Some?
    && Decimal.Trim(p.card.value.gradingCompany.value) != "" && Decimal.Trim(p.card.value.grade.value) != ""
  }

  const FACETS := [Kind, PokemonType, SetName, SetCode, Rarity, Condition, Language, Finish, Edition, GradingCompany]

  /** `productMatchesQuery`, leaving out the selection of one facet if asked to. */
  predicate Matches(p: Product, q: Query, omit: Option<Facet>) {
    && (forall f: Facet :: omit != Some(f) ==> MatchesFacet(p, q, f))
    && (q.minPrice.Some? ==> p.price >= q.minPrice.value)
    && (q.maxPrice.Some? ==> p.price <= q.maxPrice.value)
    && (q.inStock.Some? ==> q.inStock.value == (p.available > 0))
    && (q.graded.Some? ==> q.graded.value == IsGraded(p))
    && q.text(p)
  }

  function Scope(ps: seq<Product>, q: Query, omit: Option<Facet>): seq<Product> {
    if ps == [] then [] else
      Scope(ps[..|ps| - 1], q, omit) + if Matches(ps[|ps| - 1], q, omit) then [ps[|ps| - 1]] else []
  }

  /** `totalProducts`. */
  function Total(ps: seq<Product>, q: Query): nat { |Scope(ps, q, None)| }

  function Values(ps: seq<Product>, f: Facet): (vs: seq<Option<string>>)
    ensures |vs| == |ps| && forall k | 0 <= k < |ps| :: vs[k] == ValueOf(ps[k], f)
  {
    seq(|ps|, k requires 0 <= k < |ps| => ValueOf(ps[k], f))
  }

  /** The option a stored value counts for: its trimmed text, unless that is empty. */
  function OptionFor(value: Option<string>): Option<string> {
    if value.None? || Decimal.Trim(value.value) == "" then None else Some(Decimal.Trim(value.value))
  }

  function CountOf(values: seq<Option<string>>, v: string): nat {
    if values == [] then 0 else
      CountOf(values[..|values| - 1], v) + if OptionFor(values[|values| - 1]) == Some(v) then 1 else 0
  }

  /** The count shown beside option `v` of facet `f`: computed with that facet's own selection left out. */
  function FacetCount(ps: seq<Product>, q: Query, f: Facet, v: string): nat {
    CountOf(Values(Scope(ps, q, Some(f)), f), v)
  }

  /** The query with the facet's selection replaced by just one option. */
  function Pick(q: Query, f: Facet, v: string): Query { q.(selected := q.selected[f := [v]]) }

  // ---------- Which products a query finds ----------

  /** A column meets a selection: nothing is selected, or its value is among the selected ones. */
  predicate Chosen(q: Query, f: Facet, value: Option<string>) {
    f !in q.selected || q.selected[f] == [] || (value.Some? && value.value in q.selected[f])
  }

  /** Columns that may be empty are never selected by the empty text. */
  function NonEmpty(value: Option<string>): Option<string> {
    if value == Some("") then None else value
  }

  /** The card's columns meet the selections; a product without a card meets none. */
  predicate CardChosen(card: Option<Card>, q: Query) {
    match card
    case None => forall f <- FACETS[1..] :: Chosen(q, f, None)
    case Some(c) =>
      && Chosen(q, PokemonType, NonEmpty(c.pokemonType)) && Chosen(q, SetName, Some(c.setName)) && Chosen(q, SetCode, NonEmpty(c.setCode))
      && Chosen(q, Rarity, Some(c.rarity)) && Chosen(q, Condition, Some(c.condition)) && Chosen(q, Language, Some(c.language))
      && Chosen(q, Finish, NonEmpty(c.finish)) && Chosen(q, Edition, NonEmpty(c.edition)) && Chosen(q, GradingCompany, NonEmpty(c.gradingCompany))
  }

  /** A card is graded when it names a company and a grade, neither of them blank. */
  predicate Graded(card: Option<Card>) {
    match card
    case None => false
    case Some(c) =>
      && c.gradingCompany.Some? && c.grade.Some?
      && (exists x <- c.gradingCompany.value :: !Decimal.IsSpace(x)) && (exists x <- c.grade.value :: !Decimal.IsSpace(x))
  }

  ghost predicate Wanted(p: Product, q: Query) {
    && Chosen(q, Kind, Some(p.kind)) && CardChosen(p.card, q)
    && (q.minPrice.Some? ==> q.minPrice.value <= p.price) && (q.maxPrice.Some? ==> p.price <= q.maxPrice.value)
    && (q.inStock == Some(true) ==> p.available > 0) && (q.inStock == Some(false) ==> p.available == 0)
    && (q.graded == Some(true) ==> Graded(p.card)) && (q.graded == Some(false) ==> !Graded(p.card))
    && q.text(p)
  }

  lemma {:induction false} BlankIff(s: string)
    ensures Decimal.Trim(s) == "" <==> forall x <- s :: Decimal.IsSpace(x)
    decreases |s|
  {
    if s != [] {
      if Decimal.IsSpace(s[0]) {
        BlankIff(s[1..]);
        assert s == [s[0]] + s[1..];
      } else if Decimal.IsSpace(s[|s| - 1]) {
        BlankIff(s[..|s| - 1]);
        assert s == s[..|s| - 1] + [s[|s| - 1]];
      }
    }
  }

  lemma GradedIff(p: Product)
    ensures IsGraded(p) <==> Graded(p.card)
  {
    if p.card.Some? && p.card.value.gradingCompany.Some? && p.card.value.grade.Some? {
      BlankIff(p.card.value.gradingCompany.value);
      BlankIff(p.card.value.grade.value);
    }
  }

  lemma MatchesCard(p: Product, q: Query)
    ensures (forall f: Facet :: MatchesFacet(p, q, f)) <==> Chosen(q, Kind, Some(p.kind)) && CardChosen(p.card, q)
  {
    match p.card
    case None =>
      assert forall f <- FACETS[1..] :: MatchesFacet(p, q, f) <==> Chosen(q, f, None);
      assert MatchesFacet(p, q, Kind) <==> Chosen(q, Kind, Some(p.kind));
      forall f: Facet ensures f == Kind || f in FACETS[1..] {
        AllListed(f);
        assert FACETS == [Kind] + FACETS[1..];
      }
    case Some(c) =>
      assert MatchesFacet(p, q, Kind) <==> Chosen(q, Kind, Some(p.kind));
      assert MatchesFacet(p, q, PokemonType) <==> Chosen(q, PokemonType, NonEmpty(c.pokemonType));
      assert MatchesFacet(p, q, SetName) <==> Chosen(q, SetName, Some(c.setName));
      assert MatchesFacet(p, q, SetCode) <==> Chosen(q, SetCode, NonEmpty(c.setCode));
      assert MatchesFacet(p, q, Rarity) <==> Chosen(q, Rarity, Some(c.rarity));
      assert MatchesFacet(p, q, Condition) <==> Chosen(q, Condition, Some(c.condition));
      assert MatchesFacet(p, q, Language) <==> Chosen(q, Language, Some(c.language));
      assert MatchesFacet(p, q, Finish) <==> Chosen(q, Finish, NonEmpty(c.finish));
      assert MatchesFacet(p, q, Edition) <==> Chosen(q, Edition, NonEmpty(c.edition));
      assert MatchesFacet(p, q, GradingCompany) <==> Chosen(q, GradingCompany, NonEmpty(c.gradingCompany));
      if Chosen(q, Kind, Some(p.kind)) && CardChosen(p.card, q) {
        forall f: Facet ensures MatchesFacet(p, q, f) {
          match f
          case Kind => case PokemonType => case SetName => case SetCode => case Rarity =>
          case Condition => case Language => case Finish => case Edition => case GradingCompany =>
        }
      }
  }

  /** A query finds exactly the products that meet its selections, its bounds and its switches, each as often as it is listed. */
  lemma {:induction false} FoundIff(ps: seq<Product>, q: Query, p: Product)
    ensures multiset(Scope(ps, q, None))[p] == if Wanted(p, q) then multiset(ps)[p] else 0
  {
    MatchesCard(p, q);
    GradedIff(p);
    assert Matches(p, q, None) <==> Wanted(p, q);
    if ps != [] {
      FoundIff(ps[..|ps| - 1], q, p);
      assert ps == ps[..|ps| - 1] + [ps[|ps| - 1]];
    }
  }

  // ---------- Counts predict filtering ----------

  lemma {:induction false} TrimIdempotent(s: string)
    ensures Decimal.Trim(Decimal.Trim(s)) == Decimal.Trim(s)
    decreases |s|
  {
    if s != [] && Decimal.IsSpace(s[0]) {
      TrimIdempotent(s[1..]);
    } else if s != [] && Decimal.IsSpace(s[|s| - 1]) {
      TrimIdempotent(s[..|s| - 1]);
    }
  }

  lemma AllListed(f: Facet)
    ensures f in FACETS
  {
  }

  lemma PickMatches(p: Product, q: Query, f: Facet, v: string)
    requires v != ""
    ensures Matches(p, Pick(q, f, v), None) <==> Matches(p, q, Some(f)) && ValueOf(p, f) == Some(v)
  {
    forall g: Facet | g != f ensures MatchesFacet(p, Pick(q, f, v), g) <==> MatchesFacet(p, q, g) {
      assert Selection(Pick(q, f, v), g) == Selection(q, g);
    }
    assert Selection(Pick(q, f, v), f) == [v];
  }

  /** Products in scope that store a differently spaced form of the option. */
  predicate StoresUntrimmed(p: Product, q: Query, f: Facet, v: string) {
    Matches(p, q, Some(f)) && OptionFor(ValueOf(p, f)) == Some(v) && ValueOf(p, f) != Some(v)
  }

  lemma CountStep(ps: seq<Product>, p: Product, q: Query, f: Facet, v: string)
    ensures FacetCount(ps + [p], q, f, v) == FacetCount(ps, q, f, v) + if Matches(p, q, Some(f)) && OptionFor(ValueOf(p, f)) == Some(v) then 1 else 0
    ensures Total(ps + [p], Pick(q, f, v)) == Total(ps, Pick(q, f, v)) + if Matches(p, Pick(q, f, v), None) then 1 else 0
  {
    assert (ps + [p])[..|ps|] == ps;
    var scope := Scope(ps, q, Some(f));
    if Matches(p, q, Some(f)) {
      assert Values(scope + [p], f)[..|scope|] == Values(scope, f);
    } else {
      assert scope + [] == scope;
    }
  }

  /**
   The count beside an option is the number of products the query would select with that facet's
   selection replaced by the option, exactly when no product in scope stores the option with extra spaces.
   */
  lemma {:induction false} FacetPredictsIff(ps: seq<Product>, q: Query, f: Facet, v: string)
    requires v != "" && Decimal.Trim(v) == v
    ensures FacetCount(ps, q, f, v) >= Total(ps, Pick(q, f, v))
    ensures FacetCount(ps, q, f, v) == Total(ps, Pick(q, f, v)) <==> !(exists p <- ps :: StoresUntrimmed(p, q, f, v))
  {
    if ps != [] {
      var front, p := ps[..|ps| - 1], ps[|ps| - 1];
      assert ps == front + [p];
      FacetPredictsIff(front, q, f, v);
      CountStep(front, p, q, f, v);
      PickMatches(p, q, f, v);
      assert (exists x <- ps :: StoresUntrimmed(x, q, f, v)) <==> (exists x <- front :: StoresUntrimmed(x, q, f, v)) || StoresUntrimmed(p, q, f, v);
    }
  }

  predicate Trimmed(ps: seq<Product>, f: Facet) {
    forall p <- ps :: ValueOf(p, f).Some? ==> Decimal.Trim(ValueOf(p, f).value) == ValueOf(p, f).value
  }

  /** With trimmed stored values every count is what filtering by that option yields. */
  lemma FacetPredicts(ps: seq<Product>, q: Query, f: Facet, v: string)
    requires v != "" && Decimal.Trim(v) == v
    requires Trimmed(ps, f)
    ensures FacetCount(ps, q, f, v) == Total(ps, Pick(q, f, v))
  {
    FacetPredictsIff(ps, q, f, v);
  }

  /** A set stored with a trailing space is counted for the option that then selects nothing. */
  lemma UntrimmedMisleads()
    ensures exists ps: seq<Product>, q: Query :: FacetCount(ps, q, Kind, "A") == 1 && Total(ps, Pick(q, Kind, "A")) == 0
  {
    var p := Product("A ", 0, 0, None);
    var q := Query(map[], None, None, None, None, (x: Product) => true);
    assert "A "[..1] == "A";
    assert Decimal.Trim("A ") == "A";
    CountStep([], p, q, Kind, "A");
    PickMatches(p, q, Kind, "A");
    assert [] + [p] == [p];
    assert FacetCount([p], q, Kind, "A") == 1 && Total([p], Pick(q, Kind, "A")) == 0;
  }

  // ---------- Availability and price range ----------

  function CountIn(ps: seq<Product>, good: Product -> bool): nat {
    if ps == [] then 0 else CountIn(ps[..|ps| - 1], good) + if good(ps[|ps| - 1]) then 1 else 0
  }

  datatype Availability = Availability(inStock: nat, outOfStock: nat, graded: nat, ungraded: nat)

  function AvailabilityOf(scoped: seq<Product>): Availability {
    var graded := CountIn(scoped, p => IsGraded(p));
    var inStock := CountIn(scoped, (p: Product) => p.available > 0);
    CountAtMost(scoped, p => IsGraded(p));
    CountAtMost(scoped, (p: Product) => p.available > 0);
    Availability(inStock, |scoped| - inStock, graded, |scoped| - graded)
  }

  lemma {:induction false} CountAtMost(ps: seq<Product>, good: Product -> bool)
    ensures CountIn(ps, good) <= |ps|
  {
    if ps != [] { CountAtMost(ps[..|ps| - 1], good); }
  }

  lemma {:induction false} CountIsNarrowedTotal(ps: seq<Product>, q: Query, narrowed: Query, good: Product -> bool)
    requires forall p :: Matches(p, narrowed, None) <==> Matches(p, q, None) && good(p)
    ensures CountIn(Scope(ps, q, None), good) == Total(ps, narrowed)
  {
    if ps != [] {
      var front, p := ps[..|ps| - 1], ps[|ps| - 1];
      CountIsNarrowedTotal(front, q, narrowed, good);
      var scope := Scope(front, q, None);
      assert (scope + [p])[..|scope|] == scope && scope + [] == scope;
    }
  }

  lemma {:induction false} CountComplement(ps: seq<Product>, good: Product -> bool)
    ensures CountIn(ps, good) + CountIn(ps, p => !good(p)) == |ps|
  {
    if ps != [] { CountComplement(ps[..|ps| - 1], good); }
  }

  lemma StockPredicts(ps: seq<Product>, q: Query)
    requires q.inStock.None?
    ensures var a := AvailabilityOf(Scope(ps, q, None));
            a.inStock == Total(ps, q.(inStock := Some(true))) && a.outOfStock == Total(ps, q.(inStock := Some(false)))
  {
    var stocked := (p: Product) => p.available > 0;
    CountComplement(Scope(ps, q, None), stocked);
    SameFacets(q, q.(inStock := Some(true)));
    SameFacets(q, q.(inStock := Some(false)));
    CountIsNarrowedTotal(ps, q, q.(inStock := Some(true)), stocked);
    CountIsNarrowedTotal(ps, q, q.(inStock := Some(false)), p => !stocked(p));
  }

  lemma GradedPredicts(ps: seq<Product>, q: Query)
    requires q.graded.None?
    ensures var a := AvailabilityOf(Scope(ps, q, None));
            a.graded == Total(ps, q.(graded := Some(true))) && a.ungraded == Total(ps, q.(graded := Some(false)))
  {
    var graded := (p: Product) => IsGraded(p);
    CountComplement(Scope(ps, q, None), graded);
    SameFacets(q, q.(graded := Some(true)));
    SameFacets(q, q.(graded := Some(false)));
    CountIsNarrowedTotal(ps, q, q.(graded := Some(true)), graded);
    CountIsNarrowedTotal(ps, q, q.(graded := Some(false)), p => !graded(p));
  }

  lemma SameFacets(q: Query, r: Query)
    requires q.selected == r.selected
    ensures forall p, f :: MatchesFacet(p, q, f) == MatchesFacet(p, r, f)
  {
  }

  /**
   Both availability pairs add up to the total, and while the query leaves a switch open each number
   is what turning the switch on or off would select.
   */
  lemma AvailabilityPredicts(ps: seq<Product>, q: Query)
    ensures var a := AvailabilityOf(Scope(ps, q, None));
            && a.inStock + a.outOfStock == a.graded + a.ungraded == Total(ps, q)
            && (q.inStock.None? ==> a.inStock == Total(ps, q.(inStock := Some(true))) && a.outOfStock == Total(ps, q.(inStock := Some(false))))
            && (q.graded.None? ==> a.graded == Total(ps, q.(graded := Some(true))) && a.ungraded == Total(ps, q.(graded := Some(false))))
  {
    if q.inStock.None? { StockPredicts(ps, q); }
    if q.graded.None? { GradedPredicts(ps, q); }
  }

  // ---------- The loops ----------

  /** `countOptions`, without the final sort by label. */
  method CountOptions(values: seq<Option<string>>) returns (counts: map<string, nat>)
    ensures forall v :: v in counts <==> CountOf(values, v) > 0
    ensures forall v <- counts :: counts[v] == CountOf(values, v) && v != "" && Decimal.Trim(v) == v
  {
    counts := map[];
    for k := 0 to |values|
      invariant forall v :: v in counts <==> CountOf(values[..k], v) > 0
      invariant forall v <- counts :: counts[v] == CountOf(values[..k], v) && v != "" && Decimal.Trim(v) == v
    {
      assert values[..k + 1][..k] == values[..k];
      if values[k].Some? {
        var normalized := Decimal.Trim(values[k].value);
        TrimIdempotent(values[k].value);
        if normalized != "" {
          counts := counts[normalized := (if normalized in counts then counts[normalized] else 0) + 1];
        }
      }
    }
    assert values[..|values|] == values;
  }

  method ScopeOf(ps: seq<Product>, q: Query, omit: Option<Facet>) returns (scope: seq<Product>)
    ensures scope == Scope(ps, q, omit)
  {
    scope := [];
    for k := 0 to |ps|
      invariant scope == Scope(ps[..k], q, omit)
    {
      assert ps[..k + 1][..k] == ps[..k];
      scope := scope + if Matches(ps[k], q, omit) then [ps[k]] else [];
    }
    assert ps[..|ps|] == ps;
  }

  method CountAvailability(scoped: seq<Product>) returns (a: Availability)
    ensures a == AvailabilityOf(scoped)
  {
    var inStock, outOfStock, graded := 0, 0, 0;
    for k := 0 to |scoped|
      invariant inStock == CountIn(scoped[..k], (p: Product) => p.available > 0) && inStock + outOfStock == k
      invariant graded == CountIn(scoped[..k], p => IsGraded(p)) && graded <= k
    {
      assert scoped[..k + 1][..k] == scoped[..k];
      if scoped[k].available > 0 { inStock := inStock + 1; } else { outOfStock := outOfStock + 1; }
      if IsGraded(scoped[k]) { graded := graded + 1; }
    }
    assert scoped[..|scoped|] == scoped;
    a := Availability(inStock, outOfStock, graded, |scoped| - graded);
  }

  method PriceRange(scoped: seq<Product>) returns (range: Option<(int, int)>)
    ensures range.None? <==> scoped == []
    ensures range.Some? ==> (forall p <- scoped :: range.value.0 <= p.price <= range.value.1)
                            && (exists p <- scoped :: p.price == range.value.0) && (exists p <- scoped :: p.price == range.value.1)
  {
    range := None;
    for k := 0 to |scoped|
      invariant range.None? <==> k == 0
      invariant range.Some? ==> (forall j | 0 <= j < k :: range.value.0 <= scoped[j].price <= range.value.1)
      invariant range.Some? ==> (exists p <- scoped :: p.price == range.value.0) && (exists p <- scoped :: p.price == range.value.1)
    {
      var price := scoped[k].price;
      assert scoped[k] in scoped;
      range := if range.None? then Some((price, price))
               else Some((if price < range.value.0 then price else range.value.0, if price > range.value.1 then price else range.value.1));
    }
  }

  datatype Filters = Filters(total: nat, options: map<Facet, map<string, nat>>, availability: Availability, range: Option<(int, int)>)

  /** `getFilters`: every option of every facet with the count that filtering by it would give. */
  method GetFilters(ps: seq<Product>, q: Query) returns (r: Filters)
    ensures r.total == Total(ps, q) && r.availability == AvailabilityOf(Scope(ps, q, None))
    ensures r.range.None? <==> r.total == 0
    ensures forall f: Facet :: f in r.options && forall v <- r.options[f] :: r.options[f][v] == FacetCount(ps, q, f, v) > 0
    ensures forall f: Facet | Trimmed(ps, f) :: f in r.options && forall v <- r.options[f] :: r.options[f][v] == Total(ps, Pick(q, f, v))
  {
    var scoped := ScopeOf(ps, q, None);
    var options: map<Facet, map<string, nat>> := map[];
    for k := 0 to |FACETS|
      invariant forall j | 0 <= j < k :: FACETS[j] in options
                  && forall v <- options[FACETS[j]] :: options[FACETS[j]][v] == FacetCount(ps, q, FACETS[j], v) > 0 && v != "" && Decimal.Trim(v) == v
    {
      var scope := ScopeOf(ps, q, Some(FACETS[k]));
      var counts := CountOptions(Values(scope, FACETS[k]));
      options := options[FACETS[k] := counts];
    }
    var availability := CountAvailability(scoped);
    var range := PriceRange(scoped);
    r := Filters(|scoped|, options, availability, range);
    forall f: Facet
      ensures f in options && forall v <- options[f] :: options[f][v] == FacetCount(ps, q, f, v) > 0 && v != "" && Decimal.Trim(v) == v
    {
      AllListed(f);
      var j :| 0 <= j < |FACETS| && FACETS[j] == f;
    }
    forall f: Facet, v | Trimmed(ps, f) && v in options[f] ensures options[f][v] == Total(ps, Pick(q, f, v)) {
      FacetPredicts(ps, q, f, v);
    }
  }
}
