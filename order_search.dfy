/**
 * The ARIMA order search of `generate_yield_forecast`: every order (p, d, q)
 * with p in 0..3, d in 0..1, q in 0..3 is fitted and scored, and the first one
 * with the smallest in-sample mean absolute error wins.
 *
 * Fitting, in-sample prediction and the error metric are foreign numerics; they
 * are one oracle, a `Scorer`, that maps the series and an order to the score, or
 * to None when fitting raises.
 */
module OrderSearch {
  import opened Wrappers

  /** An ARIMA order: autoregressive, differencing and moving-average degrees. */
  datatype Order = Order(p: nat, d: nat, q: nat)

  /** An order together with its in-sample mean absolute error. */
  datatype Selection = Selection(order: Order, mae: real)

  /**
   * Fit ARIMA(order) to the series and score it. None stands for a fit that
   * raised; it also stands for a non-finite score, which the source's
   * `mae < best_mae` test never lets replace anything and so is skipped alike.
   */
  type Scorer = (seq<real>, Order) -> Option<real>

  /** The bounded grid of candidate orders. */
  predicate InGrid(o: Order) {
    o.p <= 3 && o.d <= 1 && o.q <= 3
  }

  /** Position of an order in the enumeration p-outer, d-middle, q-inner. */
  function Index(o: Order): int {
    8 * o.p + 4 * o.d + o.q
  }

  /** The order visited at step i of the triple loop. */
  function OrderAt(i: nat): Order {
    Order(i / 8, (i % 8) / 4, (i % 8) % 4)
  }

  /** The candidates in the order the nested loops visit them. */
  function Grid(): (g: seq<Order>)
    ensures |g| == 32
  {
    seq(32, (i: int) requires 0 <= i => OrderAt(i))
  }

  /** `a` is visited before `b` by loops nested p-outer, d-middle, q-inner. */
  predicate LexBefore(a: Order, b: Order) {
    a.p < b.p || (a.p == b.p && (a.d < b.d || (a.d == b.d && a.q < b.q)))
  }

  lemma IndexOfOrderAt(i: nat)
    requires i < 32
    ensures InGrid(OrderAt(i)) && Index(OrderAt(i)) == i
  {
    assert i == 8 * (i / 8) + i % 8;
    assert i % 8 == 4 * ((i % 8) / 4) + (i % 8) % 4;
  }

  lemma OrderAtIndex(o: Order)
    requires InGrid(o)
    ensures 0 <= Index(o) < 32 && OrderAt(Index(o)) == o
  {
    var i := Index(o);
    assert i / 8 == o.p;
    assert i % 8 == 4 * o.d + o.q;
  }

  /** For orders of the grid, visiting order is exactly the order of indices. */
  lemma LexBeforeIsIndexOrder(a: Order, b: Order)
    requires InGrid(a) && InGrid(b)
    ensures LexBefore(a, b) <==> Index(a) < Index(b)
  {
  }

  /**
   * The grid holds exactly the 32 orders with p <= 3, d <= 1, q <= 3, each once,
   * listed p-outer, d-middle, q-inner.
   */
  lemma GridEnumeration()
    ensures forall i :: 0 <= i < |Grid()| ==> InGrid(Grid()[i])
    ensures forall o :: InGrid(o) ==> o in Grid()
    ensures forall i, j :: 0 <= i < j < |Grid()| ==> LexBefore(Grid()[i], Grid()[j])
  {
    forall i | 0 <= i < |Grid()| ensures InGrid(Grid()[i]) {
      IndexOfOrderAt(i);
    }
    forall o | InGrid(o) ensures o in Grid() {
      OrderAtIndex(o);
      assert Grid()[Index(o)] == o;
    }
    forall i, j | 0 <= i < j < |Grid()| ensures LexBefore(Grid()[i], Grid()[j]) {
      IndexOfOrderAt(i);
      IndexOfOrderAt(j);
      LexBeforeIsIndexOrder(Grid()[i], Grid()[j]);
    }
  }

  /**
   * Reference definition of the search result: the best candidate of `cs`,
   * where the head wins unless a later candidate is strictly better.
   */
  function FirstArgmin(data: seq<real>, cs: seq<Order>, score: Scorer): Option<Selection>
  {
    if cs == [] then None
    else
      var rest := FirstArgmin(data, cs[1..], score);
      match score(data, cs[0])
      case None => rest
      case Some(m) => if rest.Some? && rest.value.mae < m then rest else Some(Selection(cs[0], m))
  }

  /** One step of the accumulator loop: replace the incumbent only on a strictly smaller score. */
  function Keep(best: Option<Selection>, o: Order, s: Option<real>): Option<Selection>
  {
    match s
    case None => best
    case Some(m) => if best.None? || m < best.value.mae then Some(Selection(o, m)) else best
  }

  /** `k` is the first position of `cs` whose candidate fits with a score no worse than any other fitting one. */
  ghost predicate IsFirstMinimum(data: seq<real>, cs: seq<Order>, score: Scorer, k: int)
  {
    && 0 <= k < |cs|
    && score(data, cs[k]).Some?
    && (forall j :: 0 <= j < |cs| && score(data, cs[j]).Some? ==> score(data, cs[k]).value <= score(data, cs[j]).value)
    && (forall j :: 0 <= j < k && score(data, cs[j]).Some? ==> score(data, cs[k]).value < score(data, cs[j]).value)
  }

  /** Scanning left to right with `Keep` computes the reference result. */
  lemma {:induction false} FirstArgminSnoc(data: seq<real>, cs: seq<Order>, o: Order, score: Scorer)
    ensures FirstArgmin(data, cs + [o], score) == Keep(FirstArgmin(data, cs, score), o, score(data, o))
  {
    if cs == [] {
      assert [o][1..] == [];
    } else {
      assert (cs + [o])[1..] == cs[1..] + [o];
      FirstArgminSnoc(data, cs[1..], o, score);
    }
  }

  /** The search finds nothing exactly when no candidate fits. */
  lemma {:induction false} FirstArgminNoneIff(data: seq<real>, cs: seq<Order>, score: Scorer)
    ensures FirstArgmin(data, cs, score).None? <==> forall i :: 0 <= i < |cs| ==> score(data, cs[i]).None?
  {
    if cs != [] {
      FirstArgminNoneIff(data, cs[1..], score);
      assert forall i :: 1 <= i < |cs| ==> cs[i] == cs[1..][i - 1];
    }
  }

  /** If the tail's first minimum beats the head (or the head does not fit), it is the first minimum of the whole. */
  lemma TailMinimumWins(data: seq<real>, cs: seq<Order>, score: Scorer, k: int)
    requires cs != [] && IsFirstMinimum(data, cs[1..], score, k)
    requires score(data, cs[0]).Some? ==> score(data, cs[1..][k]).value < score(data, cs[0]).value
    ensures IsFirstMinimum(data, cs, score, k + 1)
  {
    assert forall i :: 1 <= i < |cs| ==> cs[i] == cs[1..][i - 1];
  }

  /** A fitting head no worse than every fitting tail candidate is the first minimum. */
  lemma HeadMinimumWins(data: seq<real>, cs: seq<Order>, score: Scorer)
    requires cs != [] && score(data, cs[0]).Some?
    requires forall j :: 0 <= j < |cs| - 1 && score(data, cs[1..][j]).Some? ==> score(data, cs[0]).value <= score(data, cs[1..][j]).value
    ensures IsFirstMinimum(data, cs, score, 0)
  {
    assert forall i :: 1 <= i < |cs| ==> cs[i] == cs[1..][i - 1];
  }

  /** A found candidate is the first minimum of the fitting candidates, and carries its own score. */
  lemma {:induction false} FirstArgminIsFirstMinimum(data: seq<real>, cs: seq<Order>, score: Scorer)
    ensures var r := FirstArgmin(data, cs, score);
      r.Some? ==> exists k :: IsFirstMinimum(data, cs, score, k) && cs[k] == r.value.order && score(data, cs[k]) == Some(r.value.mae)
  {
    if cs != [] {
      var tail := cs[1..];
      var rest := FirstArgmin(data, tail, score);
      FirstArgminIsFirstMinimum(data, tail, score);
      var head := score(data, cs[0]);
      if rest.Some? && (head.None? || rest.value.mae < head.value) {
        var k :| IsFirstMinimum(data, tail, score, k) && tail[k] == rest.value.order && score(data, tail[k]) == Some(rest.value.mae);
        TailMinimumWins(data, cs, score, k);
        assert cs[k + 1] == tail[k];
      } else if head.Some? {
        if rest.None? {
          FirstArgminNoneIff(data, tail, score);
        } else {
          var k :| IsFirstMinimum(data, tail, score, k) && tail[k] == rest.value.order && score(data, tail[k]) == Some(rest.value.mae);
        }
        HeadMinimumWins(data, cs, score);
      }
    }
  }

  /** At most one position is the first minimum, so the search result is determined by the scores. */
  lemma FirstMinimumUnique(data: seq<real>, cs: seq<Order>, score: Scorer, k1: int, k2: int)
    requires IsFirstMinimum(data, cs, score, k1) && IsFirstMinimum(data, cs, score, k2)
    ensures k1 == k2
  {
  }

  /**
   * What the search over the grid promises, stated on orders: it fails exactly
   * when no order of the grid fits; otherwise the chosen order is in the grid,
   * fits with the reported score, scores no worse than any fitting order, and
   * scores strictly better than every fitting order visited before it.
   */
  lemma GridSearchResult(data: seq<real>, score: Scorer)
    ensures var r := FirstArgmin(data, Grid(), score);
      && (r.None? <==> forall o :: InGrid(o) ==> score(data, o).None?)
      && (r.Some? ==>
          && InGrid(r.value.order)
          && score(data, r.value.order) == Some(r.value.mae)
          && (forall o :: InGrid(o) && score(data, o).Some? ==> r.value.mae <= score(data, o).value)
          && (forall o :: InGrid(o) && LexBefore(o, r.value.order) && score(data, o).Some? ==> r.value.mae < score(data, o).value))
  {
    var g := Grid();
    var r := FirstArgmin(data, g, score);
    GridEnumeration();
    FirstArgminNoneIff(data, g, score);
    FirstArgminIsFirstMinimum(data, g, score);
    if r.Some? {
      var k :| IsFirstMinimum(data, g, score, k) && g[k] == r.value.order && score(data, g[k]) == Some(r.value.mae);
      forall o | InGrid(o) && score(data, o).Some?
        ensures r.value.mae <= score(data, o).value
        ensures LexBefore(o, r.value.order) ==> r.value.mae < score(data, o).value
      {
        OrderAtIndex(o);
        IndexOfOrderAt(k);
        assert g[Index(o)] == o;
        LexBeforeIsIndexOrder(o, r.value.order);
      }
    }
  }

  /**
   * The triple loop of lines 151-161: every grid order is fitted and scored in
   * turn, and the incumbent is replaced only on a strictly smaller score. The
   * source starts from `best_mae = inf`; here an empty `bestOrder` plays that part.
   * `visited` records the orders handed to the scorer.
   */
  method SearchOrder(data: seq<real>, score: Scorer) returns (best: Option<Selection>, ghost visited: seq<Order>)
    ensures best == FirstArgmin(data, Grid(), score)
    ensures visited == Grid()
  {
    var bestMae: real := 0.0;
    var bestOrder: Option<Order> := None;
    visited := [];
    var p := 0;
    while p < 4
      invariant 0 <= p <= 4
      invariant visited == Grid()[..8 * p]
      invariant Pair(bestOrder, bestMae) == FirstArgmin(data, visited, score)
    {
      var d := 0;
      while d < 2
        invariant 0 <= d <= 2
        invariant visited == Grid()[..8 * p + 4 * d]
        invariant Pair(bestOrder, bestMae) == FirstArgmin(data, visited, score)
      {
        var q := 0;
        while q < 4
          invariant 0 <= q <= 4
          invariant visited == Grid()[..8 * p + 4 * d + q]
          invariant Pair(bestOrder, bestMae) == FirstArgmin(data, visited, score)
        {
          var o := Order(p, d, q);
          GridPrefixSnoc(o);
          FirstArgminSnoc(data, visited, o, score);
          match score(data, o) {
            case Some(mae) =>
              if bestOrder.None? || mae < bestMae {
                bestMae := mae;
                bestOrder := Some(o);
              }
            case None =>
          }
          visited := visited + [o];
          q := q + 1;
        }
        d := d + 1;
      }
      p := p + 1;
    }
    assert Grid()[..32] == Grid();
    best := Pair(bestOrder, bestMae);
  }

  /** The grid prefix up to an order is the prefix before it followed by the order. */
  lemma GridPrefixSnoc(o: Order)
    requires InGrid(o)
    ensures Index(o) < 32 && Grid()[..Index(o) + 1] == Grid()[..Index(o)] + [o]
  {
    OrderAtIndex(o);
  }

  /** The accumulator pair `(best_order, best_mae)` read as one optional selection. */
  function Pair(order: Option<Order>, mae: real): Option<Selection>
  {
    match order
    case None => None
    case Some(o) => Some(Selection(o, mae))
  }
}
