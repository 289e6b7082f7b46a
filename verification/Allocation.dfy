/** Splitting a budget over reserves: fixed amounts first, then percentage shares rounded by largest remainder. */
module Allocation {
  import opened Wrappers
  import opened Sorting

  type BasisPoints = n: nat | n <= 10_000

  datatype Instruction = Fixed(reserveId: string, atomicUnits: nat) | Percentage(reserveId: string, basisPoints: BasisPoints)

  datatype Share = Share(reserveId: string, amount: nat)

  /** A percentage share before rounding: `floor` whole units and `remainder` ten-thousandths of one. */
  datatype Part = Part(reserveId: string, floor: nat, remainder: nat)

  datatype AllocationError = UnknownReserve | PercentageOver100 | InsufficientAvailable | NothingToResolve

  // ----- what the instructions ask for -----

  function FixedOf(i: Instruction): int {
    if i.Fixed? then i.atomicUnits else 0
  }

  function PointsOf(i: Instruction): int {
    if i.Percentage? then i.basisPoints else 0
  }

  function FixedTotal(ins: seq<Instruction>): (r: nat) {
    SumIsNat(ins, FixedOf);
    Sum(ins, FixedOf)
  }

  function PercentageTotal(ins: seq<Instruction>): (r: nat) {
    SumIsNat(ins, PointsOf);
    Sum(ins, PointsOf)
  }

  lemma {:induction false} SumIsNat<T>(xs: seq<T>, w: T -> int)
    requires forall x :: x in xs ==> w(x) >= 0
    ensures Sum(xs, w) >= 0
  {
    if xs != [] { SumIsNat(xs[1..], w); }
  }

  function FixedCredits(ins: seq<Instruction>): seq<Share> {
    if ins == [] then []
    else
      var last := ins[|ins| - 1];
      FixedCredits(ins[..|ins| - 1]) + if last.Fixed? then [Share(last.reserveId, last.atomicUnits)] else []
  }

  function PartOf(budget: nat, i: Instruction): Part
    requires i.Percentage?
  {
    Part(i.reserveId, budget * i.basisPoints / 10_000, budget * i.basisPoints % 10_000)
  }

  /** The percentage shares of `budget`, in the order of the instructions. */
  function Parts(budget: nat, ins: seq<Instruction>): seq<Part> {
    if ins == [] then []
    else
      var last := ins[|ins| - 1];
      Parts(budget, ins[..|ins| - 1]) + if last.Percentage? then [PartOf(budget, last)] else []
  }

  // ----- crediting reserves -----

  function WeightOf(id: string): Share -> int {
    (c: Share) => if c.reserveId == id then c.amount else 0
  }

  /** What a list of credits gives to one reserve. */
  function Total(credits: seq<Share>, id: string): (r: nat) {
    SumIsNat(credits, WeightOf(id));
    Sum(credits, WeightOf(id))
  }

  /** The credited reserves in the order of their first credit, as a JavaScript Map keeps them. */
  function Ids(credits: seq<Share>): seq<string> {
    if credits == [] then []
    else
      var before, last := Ids(credits[..|credits| - 1]), credits[|credits| - 1];
      if last.reserveId in before then before else before + [last.reserveId]
  }

  function Table(credits: seq<Share>): seq<Share> {
    seq(|Ids(credits)|, k requires 0 <= k < |Ids(credits)| => Share(Ids(credits)[k], Total(credits, Ids(credits)[k])))
  }

  predicate ShareLe(a: Share, b: Share) {
    IdLe(a.reserveId, b.reserveId)
  }

  function AmountOf(s: Share): int {
    s.amount
  }

  // ----- rounding -----

  /** Larger remainders first, then smaller reserve ids. */
  predicate PartLe(a: Part, b: Part) {
    a.remainder > b.remainder || (a.remainder == b.remainder && IdLe(a.reserveId, b.reserveId))
  }

  function FloorOf(p: Part): int { p.floor }

  function RemainderOf(p: Part): int { p.remainder }

  function NonzeroOf(p: Part): int { if p.remainder > 0 then 1 else 0 }

  function FloorCredits(parts: seq<Part>): seq<Share> {
    seq(|parts|, k requires 0 <= k < |parts| => Share(parts[k].reserveId, parts[k].floor))
  }

  function BonusCredits(order: seq<Part>, n: nat): seq<Share>
    requires n <= |order|
  {
    seq(n, k requires 0 <= k < n => Share(order[k].reserveId, 1))
  }

  /** Each share rounded down or up: the first `n` of the order get one unit more. */
  function Rounded(order: seq<Part>, n: nat): seq<Share> {
    seq(|order|, k requires 0 <= k < |order| => Share(order[k].reserveId, order[k].floor + if k < n then 1 else 0))
  }

  /** The units that flooring leaves over. */
  function Leftover(budget: nat, ins: seq<Instruction>): int {
    budget * PercentageTotal(ins) / 10_000 - Sum(Parts(budget, ins), FloorOf)
  }

  function Order(budget: nat, ins: seq<Instruction>): seq<Part> {
    Sort(Parts(budget, ins), PartLe)
  }

  // ----- the leftover units -----

  lemma {:induction false} DivMod(n: nat)
    ensures n == 10_000 * (n / 10_000) + n % 10_000
  {
  }

  lemma {:induction false} Distribute(a: nat, b: nat, c: nat)
    ensures a * (b + c) == a * b + a * c
  {
  }

  lemma {:induction false} PartsSplit(budget: nat, ins: seq<Instruction>)
    ensures budget * PercentageTotal(ins) == 10_000 * Sum(Parts(budget, ins), FloorOf) + Sum(Parts(budget, ins), RemainderOf)
  {
    if ins != [] {
      var init, last := ins[..|ins| - 1], ins[|ins| - 1];
      PartsSplit(budget, init);
      assert ins == init + [last];
      SumOne(init, last, PointsOf);
      if last.Percentage? {
        var part := PartOf(budget, last);
        DivMod(budget * last.basisPoints);
        SumOne(Parts(budget, init), part, FloorOf);
        SumOne(Parts(budget, init), part, RemainderOf);
        Distribute(budget, PercentageTotal(init), last.basisPoints);
      } else {
        assert Parts(budget, ins) == Parts(budget, init);
      }
    }
  }

  predicate Fractions(parts: seq<Part>) {
    forall k :: 0 <= k < |parts| ==> parts[k].remainder < 10_000
  }

  lemma {:induction false} PartsAreFractions(budget: nat, ins: seq<Instruction>)
    ensures Fractions(Parts(budget, ins))
  {
    if ins != [] { PartsAreFractions(budget, ins[..|ins| - 1]); }
  }

  lemma {:induction false} RemaindersBelow(parts: seq<Part>)
    requires Fractions(parts)
    ensures 0 <= Sum(parts, NonzeroOf) <= |parts|
    ensures 0 <= Sum(parts, RemainderOf) <= 10_000 * Sum(parts, NonzeroOf)
    ensures Sum(parts, NonzeroOf) > 0 ==> Sum(parts, RemainderOf) < 10_000 * Sum(parts, NonzeroOf)
  {
    if parts != [] { RemaindersBelow(parts[1..]); }
  }

  /** Fewer units are left over than shares have a fraction, so one unit each suffices. */
  lemma {:induction false} LeftoverBound(budget: nat, ins: seq<Instruction>)
    ensures var parts := Parts(budget, ins);
            && 0 <= Leftover(budget, ins) <= Sum(parts, NonzeroOf) <= |parts|
            && (Leftover(budget, ins) == Sum(parts, NonzeroOf) ==> Leftover(budget, ins) == 0)
  {
    PartsSplit(budget, ins);
    PartsAreFractions(budget, ins);
    RemaindersBelow(Parts(budget, ins));
  }

  lemma {:induction false} PartLeOrders()
    ensures IsTotalPreorder(PartLe)
  {
    forall a, b ensures PartLe(a, b) || PartLe(b, a) { IdLeTotal(a.reserveId, b.reserveId); }
    forall a, b, c | PartLe(a, b) && PartLe(b, c) ensures PartLe(a, c) {
      if IdLe(a.reserveId, b.reserveId) && IdLe(b.reserveId, c.reserveId) { IdLeTransitive(a.reserveId, b.reserveId, c.reserveId); }
    }
  }

  /** Of parts sorted by falling remainder, the first as many as have a fraction are those that have one. */
  lemma {:induction false} FractionsComeFirst(order: seq<Part>, k: nat)
    requires IsSorted(order, PartLe) && k < Sum(order, NonzeroOf)
    ensures k < |order| && order[k].remainder > 0
  {
    if order != [] {
      if order[0].remainder > 0 {
        if k > 0 { FractionsComeFirst(order[1..], k - 1); }
      } else {
        NoFractions(order);
      }
    }
  }

  lemma {:induction false} NoFractions(order: seq<Part>)
    requires forall k :: 0 <= k < |order| ==> order[k].remainder == 0
    ensures Sum(order, NonzeroOf) == 0
  {
    if order != [] { NoFractions(order[1..]); }
  }

  // ----- resolving -----

  lemma {:induction false} LeftoverFits(budget: nat, ins: seq<Instruction>)
    ensures 0 <= Leftover(budget, ins) <= |Order(budget, ins)| && |Order(budget, ins)| == |Parts(budget, ins)|
  {
    LeftoverBound(budget, ins);
    PartLeOrders();
    SortSorts(Parts(budget, ins), PartLe);
  }

  /** Every credit to a reserve: the fixed amounts, the floors of the shares of `rest`, and one unit for the first of the order. */
  function Credits(rest: nat, ins: seq<Instruction>): seq<Share> {
    LeftoverFits(rest, ins);
    FixedCredits(ins) + FloorCredits(Parts(rest, ins)) + BonusCredits(Order(rest, ins), Leftover(rest, ins))
  }

  predicate KnownReserves(ins: seq<Instruction>, reserves: set<string>) {
    forall k :: 0 <= k < |ins| ==> ins[k].reserveId in reserves
  }

  /** The totals in ascending order of their reserves. */
  function Listed(totals: seq<Share>): Result<seq<Share>, AllocationError> {
    var resolved := Sort(totals, ShareLe);
    if resolved == [] then Failure(NothingToResolve) else Success(resolved)
  }

  function Resolve(budget: nat, ins: seq<Instruction>, reserves: set<string>): Result<seq<Share>, AllocationError> {
    if !KnownReserves(ins, reserves) then Failure(UnknownReserve)
    else if PercentageTotal(ins) > 10_000 then Failure(PercentageOver100)
    else if FixedTotal(ins) > budget then Failure(InsufficientAvailable)
    else Listed(Table(Credits(budget - FixedTotal(ins), ins)))
  }

  // ----- the table adds up -----

  lemma {:induction false} TotalOne(credits: seq<Share>, c: Share, id: string)
    ensures Total(credits + [c], id) == Total(credits, id) + if c.reserveId == id then c.amount else 0
  {
    SumOne(credits, c, WeightOf(id));
  }

  lemma {:induction false} IdsAre(credits: seq<Share>)
    ensures forall j, k :: 0 <= j < k < |Ids(credits)| ==> Ids(credits)[j] != Ids(credits)[k]
    ensures forall k :: 0 <= k < |credits| ==> credits[k].reserveId in Ids(credits)
    ensures forall id :: id in Ids(credits) ==> exists k :: 0 <= k < |credits| && credits[k].reserveId == id
  {
    if credits != [] {
      var init, last := credits[..|credits| - 1], credits[|credits| - 1];
      IdsAre(init);
      forall k | 0 <= k < |credits| ensures credits[k].reserveId in Ids(credits) {
        if k < |init| { assert init[k] == credits[k]; }
      }
      forall id | id in Ids(credits) ensures exists k :: 0 <= k < |credits| && credits[k].reserveId == id {
        if id == last.reserveId {
          assert credits[|credits| - 1].reserveId == id;
        } else {
          var k :| 0 <= k < |init| && init[k].reserveId == id;
          assert credits[k].reserveId == id;
        }
      }
    }
  }

  lemma {:induction false} TotalOfOther(credits: seq<Share>, id: string)
    requires id !in Ids(credits)
    ensures Total(credits, id) == 0
  {
    if credits != [] {
      var init, last := credits[..|credits| - 1], credits[|credits| - 1];
      TotalOfOther(init, id);
      TotalOne(init, last, id);
      assert credits == init + [last];
    }
  }

  lemma {:induction false} SumUpdate<T>(xs: seq<T>, k: nat, y: T, w: T -> int)
    requires k < |xs|
    ensures Sum(xs[k := y], w) == Sum(xs, w) - w(xs[k]) + w(y)
  {
    if k > 0 {
      SumUpdate(xs[1..], k - 1, y, w);
      assert xs[k := y][1..] == xs[1..][k - 1 := y];
    } else {
      assert xs[0 := y][1..] == xs[1..];
    }
  }

  lemma {:induction false} TotalsAfter(credits: seq<Share>, c: Share)
    ensures forall id :: id in Ids(credits) ==>
              Total(credits + [c], id) == Total(credits, id) + if id == c.reserveId then c.amount else 0
  {
    forall id | id in Ids(credits) ensures Total(credits + [c], id) == Total(credits, id) + if id == c.reserveId then c.amount else 0 {
      TotalOne(credits, c, id);
    }
  }

  lemma {:induction false} TableKnown(credits: seq<Share>, c: Share, k: nat)
    requires k < |Ids(credits)| && Ids(credits)[k] == c.reserveId
    ensures Ids(credits + [c]) == Ids(credits)
    ensures Table(credits + [c]) == Table(credits)[k := Share(c.reserveId, Total(credits, c.reserveId) + c.amount)]
  {
    assert (credits + [c])[..|credits|] == credits;
    IdsAre(credits);
    TotalsAfter(credits, c);
  }

  lemma {:induction false} TableNew(credits: seq<Share>, c: Share)
    requires c.reserveId !in Ids(credits)
    ensures Ids(credits + [c]) == Ids(credits) + [c.reserveId]
    ensures Table(credits + [c]) == Table(credits) + [c]
  {
    assert (credits + [c])[..|credits|] == credits;
    TotalsAfter(credits, c);
    TotalOfOther(credits, c.reserveId);
    TotalOne(credits, c, c.reserveId);
  }

  lemma {:induction false} TableAddsUp(credits: seq<Share>)
    ensures Sum(Table(credits), AmountOf) == Sum(credits, AmountOf)
  {
    if credits != [] {
      var init, last := credits[..|credits| - 1], credits[|credits| - 1];
      assert credits == init + [last];
      TableAddsUp(init);
      SumOne(init, last, AmountOf);
      var ids := Ids(init);
      if last.reserveId in ids {
        var k :| 0 <= k < |ids| && ids[k] == last.reserveId;
        TableKnown(init, last, k);
        SumUpdate(Table(init), k, Share(last.reserveId, Total(init, last.reserveId) + last.amount), AmountOf);
      } else {
        TableNew(init, last);
        SumOne(Table(init), last, AmountOf);
      }
    }
  }

  lemma {:induction false} FixedCreditsAddUp(ins: seq<Instruction>)
    ensures Sum(FixedCredits(ins), AmountOf) == FixedTotal(ins)
  {
    if ins != [] {
      var init, last := ins[..|ins| - 1], ins[|ins| - 1];
      FixedCreditsAddUp(init);
      assert ins == init + [last];
      SumOne(init, last, FixedOf);
      if last.Fixed? { SumOne(FixedCredits(init), Share(last.reserveId, last.atomicUnits), AmountOf); }
      else { assert FixedCredits(ins) == FixedCredits(init); }
    }
  }

  lemma {:induction false} FloorCreditsAddUp(parts: seq<Part>)
    ensures Sum(FloorCredits(parts), AmountOf) == Sum(parts, FloorOf)
  {
    if parts != [] {
      FloorCreditsAddUp(parts[1..]);
      assert FloorCredits(parts)[1..] == FloorCredits(parts[1..]);
    }
  }

  lemma {:induction false} BonusCreditsAddUp(order: seq<Part>, n: nat)
    requires n <= |order|
    ensures Sum(BonusCredits(order, n), AmountOf) == n
  {
    if n > 0 {
      BonusCreditsAddUp(order[1..], n - 1);
      assert BonusCredits(order, n)[1..] == BonusCredits(order[1..], n - 1);
    }
  }

  lemma {:induction false} CreditsAddUp(rest: nat, ins: seq<Instruction>)
    ensures Sum(Credits(rest, ins), AmountOf) == FixedTotal(ins) + rest * PercentageTotal(ins) / 10_000
  {
    LeftoverFits(rest, ins);
    var fixed, floors, bonus := FixedCredits(ins), FloorCredits(Parts(rest, ins)), BonusCredits(Order(rest, ins), Leftover(rest, ins));
    SumAppend(fixed + floors, bonus, AmountOf);
    SumAppend(fixed, floors, AmountOf);
    FixedCreditsAddUp(ins);
    FloorCreditsAddUp(Parts(rest, ins));
    BonusCreditsAddUp(Order(rest, ins), Leftover(rest, ins));
  }

  /** The resolved total is the fixed amounts and the floored percentage of the rest: never over budget, all of it at 100%. */
  lemma {:induction false} ResolvedTotal(budget: nat, ins: seq<Instruction>, reserves: set<string>)
    requires Resolve(budget, ins, reserves).Success?
    ensures var total := Sum(Resolve(budget, ins, reserves).value, AmountOf);
            && total == FixedTotal(ins) + (budget - FixedTotal(ins)) * PercentageTotal(ins) / 10_000
            && total <= budget
            && (PercentageTotal(ins) == 10_000 ==> total == budget)
  {
    var rest: nat := budget - FixedTotal(ins);
    SumSort(Table(Credits(rest, ins)), ShareLe, AmountOf);
    TableAddsUp(Credits(rest, ins));
    CreditsAddUp(rest, ins);
    PercentOf(rest, PercentageTotal(ins));
  }

  lemma {:induction false} PercentOf(rest: nat, points: nat)
    requires points <= 10_000
    ensures rest * points / 10_000 <= rest && (points == 10_000 ==> rest * points / 10_000 == rest)
  {
    assert rest * points <= rest * 10_000;
  }

  // ----- who gets the leftover units -----

  function PartWeight(id: string): Part -> int {
    (p: Part) => if p.reserveId == id then p.floor else 0
  }

  lemma {:induction false} FloorsOfReserve(parts: seq<Part>, id: string)
    ensures Total(FloorCredits(parts), id) == Sum(parts, PartWeight(id))
  {
    if parts != [] {
      FloorsOfReserve(parts[1..], id);
      assert FloorCredits(parts)[1..] == FloorCredits(parts[1..]);
    }
  }

  lemma {:induction false} RoundedOfReserve(order: seq<Part>, n: nat, id: string)
    requires n <= |order|
    ensures Total(Rounded(order, n), id) == Total(FloorCredits(order), id) + Total(BonusCredits(order, n), id)
  {
    if order != [] {
      assert FloorCredits(order)[1..] == FloorCredits(order[1..]);
      if n > 0 {
        RoundedOfReserve(order[1..], n - 1, id);
        assert Rounded(order, n)[1..] == Rounded(order[1..], n - 1);
        assert BonusCredits(order, n)[1..] == BonusCredits(order[1..], n - 1);
      } else {
        RoundedOfReserve(order[1..], 0, id);
        assert Rounded(order, 0)[1..] == Rounded(order[1..], 0);
        assert BonusCredits(order, 0) == BonusCredits(order[1..], 0) == [];
      }
    }
  }

  lemma {:induction false} TotalAppend(a: seq<Share>, b: seq<Share>, id: string)
    ensures Total(a + b, id) == Total(a, id) + Total(b, id)
  {
    SumAppend(a, b, WeightOf(id));
  }

  /**
   A reserve gets its fixed amounts and its percentage shares of `rest`, each rounded down or, for the largest remainders,
   up: the shares rounded up come first in the order by falling remainder, and each of them has a fraction.
   */
  ghost predicate RoundedFairly(rest: nat, ins: seq<Instruction>, s: Share) {
    var order, n := Order(rest, ins), Leftover(rest, ins);
    && 0 <= n <= |order| && IsSorted(order, PartLe) && multiset(order) == multiset(Parts(rest, ins))
    && (forall k :: 0 <= k < n ==> order[k].remainder > 0)
    && s.amount == Total(FixedCredits(ins), s.reserveId) + Total(Rounded(order, n), s.reserveId)
  }

  lemma {:induction false} OnlyFractionsRoundUp(rest: nat, ins: seq<Instruction>)
    ensures var order, n := Order(rest, ins), Leftover(rest, ins);
            && 0 <= n <= |order| && IsSorted(order, PartLe) && multiset(order) == multiset(Parts(rest, ins))
            && (forall k :: 0 <= k < n ==> order[k].remainder > 0)
  {
    var order, n := Order(rest, ins), Leftover(rest, ins);
    LeftoverFits(rest, ins);
    LeftoverBound(rest, ins);
    PartLeOrders();
    SortSorts(Parts(rest, ins), PartLe);
    SumSort(Parts(rest, ins), PartLe, NonzeroOf);
    forall k | 0 <= k < n ensures order[k].remainder > 0 { FractionsComeFirst(order, k); }
  }

  lemma {:induction false} CreditedFairly(rest: nat, ins: seq<Instruction>, s: Share)
    requires s.amount == Total(Credits(rest, ins), s.reserveId)
    ensures RoundedFairly(rest, ins, s)
  {
    OnlyFractionsRoundUp(rest, ins);
    CreditsOfReserve(rest, ins, s.reserveId);
  }

  lemma {:induction false} LargestRemaindersRoundUp(budget: nat, ins: seq<Instruction>, reserves: set<string>, s: Share)
    requires Resolve(budget, ins, reserves).Success? && s in Resolve(budget, ins, reserves).value
    ensures FixedTotal(ins) <= budget && RoundedFairly(budget - FixedTotal(ins), ins, s)
  {
    ShareIsTotal(Credits(budget - FixedTotal(ins), ins), s);
    CreditedFairly(budget - FixedTotal(ins), ins, s);
  }

  lemma {:induction false} CreditsOfReserve(rest: nat, ins: seq<Instruction>, id: string)
    ensures 0 <= Leftover(rest, ins) <= |Order(rest, ins)|
    ensures Total(Credits(rest, ins), id) == Total(FixedCredits(ins), id) + Total(Rounded(Order(rest, ins), Leftover(rest, ins)), id)
  {
    LeftoverFits(rest, ins);
    var order, n := Order(rest, ins), Leftover(rest, ins);
    var fixed, floors, bonus := FixedCredits(ins), FloorCredits(Parts(rest, ins)), BonusCredits(order, n);
    TotalAppend(fixed + floors, bonus, id);
    TotalAppend(fixed, floors, id);
    FloorsOfReserve(Parts(rest, ins), id);
    SumSort(Parts(rest, ins), PartLe, PartWeight(id));
    FloorsOfReserve(order, id);
    RoundedOfReserve(order, n, id);
  }

  lemma {:induction false} ShareLeOrders()
    ensures IsTotalPreorder(ShareLe)
  {
    forall a, b ensures ShareLe(a, b) || ShareLe(b, a) { IdLeTotal(a.reserveId, b.reserveId); }
    forall a, b, c | ShareLe(a, b) && ShareLe(b, c) ensures ShareLe(a, c) { IdLeTransitive(a.reserveId, b.reserveId, c.reserveId); }
  }

  lemma {:induction false} ShareIsTotal(credits: seq<Share>, s: Share)
    requires s in Sort(Table(credits), ShareLe)
    ensures s.amount == Total(credits, s.reserveId) && s.reserveId in Ids(credits)
  {
    ShareLeOrders();
    SortSorts(Table(credits), ShareLe);
    assert s in multiset(Table(credits));
    assert s in Table(credits);
  }

  predicate DistinctIds(shares: seq<Share>) {
    forall j, k :: 0 <= j < k < |shares| ==> shares[j].reserveId != shares[k].reserveId
  }

  lemma {:induction false} InsertKeepsDistinct(x: Share, xs: seq<Share>)
    requires DistinctIds(xs) && forall k :: 0 <= k < |xs| ==> xs[k].reserveId != x.reserveId
    ensures DistinctIds(Insert(x, xs, ShareLe))
  {
    if xs != [] && !ShareLe(x, xs[0]) {
      InsertKeepsDistinct(x, xs[1..]);
      var rest := Insert(x, xs[1..], ShareLe);
      InsertKeeps(x, xs[1..], ShareLe);
      forall k | 0 <= k < |rest| ensures rest[k].reserveId != xs[0].reserveId {
        assert rest[k] in multiset(xs[1..]) + multiset{x};
        assert rest[k] == x || rest[k] in xs[1..];
      }
    }
  }

  lemma {:induction false} SortKeepsDistinct(xs: seq<Share>)
    requires DistinctIds(xs)
    ensures DistinctIds(Sort(xs, ShareLe))
  {
    if xs != [] {
      SortKeepsDistinct(xs[1..]);
      ShareLeOrders();
      SortSorts(xs[1..], ShareLe);
      var rest := Sort(xs[1..], ShareLe);
      forall k | 0 <= k < |rest| ensures rest[k].reserveId != xs[0].reserveId {
        assert rest[k] in multiset(xs[1..]);
        assert rest[k] in xs[1..];
      }
      InsertKeepsDistinct(xs[0], rest);
    }
  }

  /** Every credit goes to a reserve that some instruction names. */
  lemma {:induction false} CreditsKnown(rest: nat, ins: seq<Instruction>, reserves: set<string>, id: string)
    requires KnownReserves(ins, reserves) && id in Ids(Credits(rest, ins))
    ensures id in reserves
  {
    var credits := Credits(rest, ins);
    LeftoverFits(rest, ins);
    var parts, order := Parts(rest, ins), Order(rest, ins);
    FixedCreditsKnown(ins, reserves);
    PartsKnown(rest, ins, reserves);
    PartLeOrders();
    SortSorts(parts, PartLe);
    forall k | 0 <= k < |order| ensures order[k].reserveId in reserves {
      assert order[k] in multiset(parts);
      assert order[k] in parts;
    }
    IdsAre(credits);
    var k :| 0 <= k < |credits| && credits[k].reserveId == id;
  }

  lemma {:induction false} FixedCreditsKnown(ins: seq<Instruction>, reserves: set<string>)
    requires KnownReserves(ins, reserves)
    ensures forall k :: 0 <= k < |FixedCredits(ins)| ==> FixedCredits(ins)[k].reserveId in reserves
  {
    if ins != [] { FixedCreditsKnown(ins[..|ins| - 1], reserves); }
  }

  lemma {:induction false} PartsKnown(rest: nat, ins: seq<Instruction>, reserves: set<string>)
    requires KnownReserves(ins, reserves)
    ensures forall k :: 0 <= k < |Parts(rest, ins)| ==> Parts(rest, ins)[k].reserveId in reserves
  {
    if ins != [] { PartsKnown(rest, ins[..|ins| - 1], reserves); }
  }

  lemma {:induction false} TableDistinct(credits: seq<Share>)
    ensures DistinctIds(Table(credits))
  {
    IdsAre(credits);
  }

  predicate ListsReserves(shares: seq<Share>, reserves: set<string>) {
    && IsSorted(shares, ShareLe) && DistinctIds(shares)
    && forall k :: 0 <= k < |shares| ==> shares[k].reserveId in reserves
  }

  lemma {:induction false} CreditsListReserves(rest: nat, ins: seq<Instruction>, reserves: set<string>)
    requires KnownReserves(ins, reserves)
    ensures ListsReserves(Sort(Table(Credits(rest, ins)), ShareLe), reserves)
  {
    var credits := Credits(rest, ins);
    var shares := Sort(Table(credits), ShareLe);
    ShareLeOrders();
    SortSorts(Table(credits), ShareLe);
    TableDistinct(credits);
    SortKeepsDistinct(Table(credits));
    forall k | 0 <= k < |shares| ensures shares[k].reserveId in reserves {
      ShareIsTotal(credits, shares[k]);
      CreditsKnown(rest, ins, reserves, shares[k].reserveId);
    }
  }

  /** The resolved shares are in ascending order of distinct known reserves. */
  lemma {:induction false} ResolvedReserves(budget: nat, ins: seq<Instruction>, reserves: set<string>)
    requires Resolve(budget, ins, reserves).Success?
    ensures ListsReserves(Resolve(budget, ins, reserves).value, reserves)
  {
    CreditsListReserves(budget - FixedTotal(ins), ins, reserves);
  }

  // ----- the loops -----

  /** `totals.set(id, (totals.get(id) ?? 0n) + amount)` on a JavaScript Map, taken as its entries in insertion order. */
  function Credited(totals: seq<Share>, c: Share): seq<Share> {
    if totals == [] then [c]
    else if totals[0].reserveId == c.reserveId then [Share(c.reserveId, totals[0].amount + c.amount)] + totals[1..]
    else [totals[0]] + Credited(totals[1..], c)
  }

  lemma {:induction false} CreditedAt(totals: seq<Share>, c: Share, k: nat)
    requires k < |totals| && totals[k].reserveId == c.reserveId && forall j :: 0 <= j < k ==> totals[j].reserveId != c.reserveId
    ensures Credited(totals, c) == totals[k := Share(c.reserveId, totals[k].amount + c.amount)]
  {
    if k > 0 {
      CreditedAt(totals[1..], c, k - 1);
      assert totals == [totals[0]] + totals[1..];
    }
  }

  lemma {:induction false} CreditedNew(totals: seq<Share>, c: Share)
    requires forall j :: 0 <= j < |totals| ==> totals[j].reserveId != c.reserveId
    ensures Credited(totals, c) == totals + [c]
  {
    if totals != [] {
      CreditedNew(totals[1..], c);
      assert totals == [totals[0]] + totals[1..];
    }
  }

  lemma {:induction false} CreditOne(credits: seq<Share>, c: Share)
    ensures Credited(Table(credits), c) == Table(credits + [c])
  {
    var ids := Ids(credits);
    IdsAre(credits);
    if c.reserveId in ids {
      var k :| 0 <= k < |ids| && ids[k] == c.reserveId;
      TableKnown(credits, c, k);
      CreditedAt(Table(credits), c, k);
    } else {
      TableNew(credits, c);
      CreditedNew(Table(credits), c);
    }
  }

  /** The totals of the instructions before `i`. */
  lemma {:induction false} TotalsStep(ins: seq<Instruction>, i: nat)
    requires i < |ins|
    ensures FixedTotal(ins[..i + 1]) == FixedTotal(ins[..i]) + FixedOf(ins[i])
    ensures PercentageTotal(ins[..i + 1]) == PercentageTotal(ins[..i]) + PointsOf(ins[i])
    ensures FixedCredits(ins[..i + 1]) ==
            if ins[i].Fixed? then FixedCredits(ins[..i]) + [Share(ins[i].reserveId, ins[i].atomicUnits)] else FixedCredits(ins[..i])
  {
    assert ins[..i + 1] == ins[..i] + [ins[i]];
    SumOne(ins[..i], ins[i], FixedOf);
    SumOne(ins[..i], ins[i], PointsOf);
  }

  lemma {:induction false} KnownStep(ins: seq<Instruction>, reserves: set<string>, i: nat)
    requires i < |ins|
    ensures KnownReserves(ins[..i + 1], reserves) == (KnownReserves(ins[..i], reserves) && ins[i].reserveId in reserves)
    ensures ins[i].reserveId !in reserves ==> !KnownReserves(ins, reserves)
  {
    assert forall k :: 0 <= k < i ==> ins[..i][k] == ins[..i + 1][k];
    assert ins[..i + 1][i] == ins[i];
  }

  method TallyFixed(ins: seq<Instruction>, reserves: set<string>)
    returns (known: bool, fixedTotal: nat, percentageTotal: nat, totals: seq<Share>)
    ensures known == KnownReserves(ins, reserves)
    ensures known ==> fixedTotal == FixedTotal(ins) && percentageTotal == PercentageTotal(ins) && totals == Table(FixedCredits(ins))
  {
    known, fixedTotal, percentageTotal, totals := true, 0, 0, [];
    for i := 0 to |ins|
      invariant known && KnownReserves(ins[..i], reserves)
      invariant fixedTotal == FixedTotal(ins[..i]) && percentageTotal == PercentageTotal(ins[..i])
      invariant totals == Table(FixedCredits(ins[..i]))
    {
      var instruction := ins[i];
      KnownStep(ins, reserves, i);
      if instruction.reserveId !in reserves {
        known := false;
        return;
      }
      TotalsStep(ins, i);
      if instruction.Fixed? {
        CreditOne(FixedCredits(ins[..i]), Share(instruction.reserveId, instruction.atomicUnits));
        fixedTotal := fixedTotal + instruction.atomicUnits;
        totals := Credited(totals, Share(instruction.reserveId, instruction.atomicUnits));
      } else {
        percentageTotal := percentageTotal + instruction.basisPoints;
      }
    }
    assert ins[..|ins|] == ins;
  }

  lemma {:induction false} PrefixStep(before: seq<Share>, credits: seq<Share>, k: nat)
    requires k < |credits|
    ensures before + credits[..k + 1] == before + credits[..k] + [credits[k]]
  {
  }

  method TallyFloors(parts: seq<Part>, ghost before: seq<Share>, totals0: seq<Share>) returns (consumed: nat, totals: seq<Share>)
    requires totals0 == Table(before)
    ensures consumed == Sum(parts, FloorOf) && totals == Table(before + FloorCredits(parts))
  {
    consumed, totals := 0, totals0;
    assert before + FloorCredits(parts)[..0] == before;
    for k := 0 to |parts|
      invariant consumed == Sum(parts[..k], FloorOf)
      invariant totals == Table(before + FloorCredits(parts)[..k])
    {
      assert parts[..k + 1] == parts[..k] + [parts[k]];
      SumOne(parts[..k], parts[k], FloorOf);
      CreditOne(before + FloorCredits(parts)[..k], FloorCredits(parts)[k]);
      PrefixStep(before, FloorCredits(parts), k);
      consumed := consumed + parts[k].floor;
      totals := Credited(totals, Share(parts[k].reserveId, parts[k].floor));
    }
    assert parts[..|parts|] == parts && FloorCredits(parts)[..|parts|] == FloorCredits(parts);
  }

  /** Gives the leftover units out one by one until none remains. */
  method TallyBonus(order: seq<Part>, leftover: nat, ghost before: seq<Share>, totals0: seq<Share>) returns (totals: seq<Share>)
    requires leftover <= |order| && totals0 == Table(before)
    ensures totals == Table(before + BonusCredits(order, leftover))
  {
    totals := totals0;
    var remaining: int := leftover;
    assert before + BonusCredits(order, leftover)[..0] == before;
    for k := 0 to |order|
      invariant remaining == leftover - k && remaining >= 0
      invariant totals == Table(before + BonusCredits(order, leftover)[..k])
    {
      if remaining <= 0 { break; }
      CreditOne(before + BonusCredits(order, leftover)[..k], BonusCredits(order, leftover)[k]);
      PrefixStep(before, BonusCredits(order, leftover), k);
      totals := Credited(totals, Share(order[k].reserveId, 1));
      remaining := remaining - 1;
    }
    assert BonusCredits(order, leftover)[..leftover] == BonusCredits(order, leftover);
  }

  /** Splits what the fixed amounts leave over the percentage instructions. */
  method SplitRest(rest: nat, instructions: seq<Instruction>, percentageTotal: nat, fixed: seq<Share>) returns (totals: seq<Share>)
    requires percentageTotal == PercentageTotal(instructions) && fixed == Table(FixedCredits(instructions))
    ensures totals == Table(Credits(rest, instructions))
  {
    var parts := Parts(rest, instructions);
    var consumed: nat;
    consumed, totals := TallyFloors(parts, FixedCredits(instructions), fixed);
    LeftoverFits(rest, instructions);
    var remaining := rest * percentageTotal / 10_000 - consumed;
    totals := TallyBonus(Sort(parts, PartLe), remaining, FixedCredits(instructions) + FloorCredits(parts), totals);
  }

  method ResolveAllocations(budget: nat, instructions: seq<Instruction>, reserves: set<string>)
    returns (r: Result<seq<Share>, AllocationError>)
    ensures r == Resolve(budget, instructions, reserves)
  {
    var known, fixedTotal, percentageTotal, totals := TallyFixed(instructions, reserves);
    if !known {
      r := Failure(UnknownReserve);
    } else if percentageTotal > 10_000 {
      r := Failure(PercentageOver100);
    } else if fixedTotal > budget {
      r := Failure(InsufficientAvailable);
    } else {
      totals := SplitRest(budget - fixedTotal, instructions, percentageTotal, totals);
      r := Listed(totals);
    }
  }
}
