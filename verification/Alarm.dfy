/** The alarm about platform wallets that run low. */
module Alarm {
  import opened Rows

  datatype Balance = Balance(currencySlug: string, value: real)

  /** One line of the report: an amount in dollars, or in the wallet's own currency when there are no rates. */
  datatype Notice = Notice(currencySlug: string, value: real, current: string)

  /** What a run hands over to be mailed. */
  datatype Report = Report(wallets: seq<Notice>, warning: bool)

  type Rates = map<string, real>

  // ---------- Rounding ----------

  /** `quantize` to three places, halves away from zero. */
  function Round3(x: real): real {
    if x >= 0.0 then (1000.0 * x + 0.5).Floor as real / 1000.0
    else -((1000.0 * -x + 0.5).Floor as real / 1000.0)
  }

  function Floor3(x: real): real {
    (1000.0 * x).Floor as real / 1000.0
  }

  predicate InThousandths(x: real) {
    (1000.0 * x).Floor as real == 1000.0 * x
  }

  /** The rounded value is a whole number of thousandths, and within half a thousandth. */
  lemma Round3IsClose(x: real)
    ensures -0.0005 <= Round3(x) - x <= 0.0005
    ensures InThousandths(Round3(x))
  {
    var y := if x >= 0.0 then x else -x;
    var n := (1000.0 * y + 0.5).Floor as real;
    assert n <= 1000.0 * y + 0.5 < n + 1.0;
    var k := (1000.0 * y + 0.5).Floor;
    assert 1000.0 * Round3(x) == (if x >= 0.0 then k else -k) as real;
  }

  lemma Round3OfZero(x: real)
    requires x == 0.0
    ensures Round3(x) == 0.0
  {
    var n := (1000.0 * x + 0.5).Floor;
    assert n as real <= 0.5 < n as real + 1.0;
    assert n == 0;
  }

  lemma Round3IsMonotone(x: real, y: real)
    requires x <= y
    ensures Round3(x) <= Round3(y)
  {
    if x >= 0.0 {
      FloorMonotone(1000.0 * x + 0.5, 1000.0 * y + 0.5);
    } else if y < 0.0 {
      FloorMonotone(1000.0 * -y + 0.5, 1000.0 * -x + 0.5);
    } else {
      FloorMonotone(0.5, 1000.0 * -x + 0.5);
      FloorMonotone(0.5, 1000.0 * y + 0.5);
    }
  }

  lemma FloorMonotone(a: real, b: real)
    requires a <= b
    ensures a.Floor <= b.Floor
  {
  }

  /** For every amount and threshold: the rounded amount is within the threshold exactly when the amount itself is
      below the threshold, cut to three places, plus half a step -- or equal to that for a negative threshold,
      because halves are rounded away from zero. */
  lemma RoundedWithinIff(x: real, threshold: real)
    ensures threshold >= 0.0 ==> (Round3(x) <= threshold <==> x < Floor3(threshold) + 0.0005)
    ensures threshold < 0.0 ==> (Round3(x) <= threshold <==> x <= Floor3(threshold) + 0.0005)
  {
    var t := (1000.0 * threshold).Floor;
    assert t as real <= 1000.0 * threshold < t as real + 1.0;
    if x >= 0.0 {
      var n := (1000.0 * x + 0.5).Floor;
      assert n as real <= 1000.0 * x + 0.5 < n as real + 1.0;
      assert Round3(x) <= threshold <==> n as real <= 1000.0 * threshold;
      assert n as real <= 1000.0 * threshold <==> n <= t;
    } else {
      var n := (1000.0 * -x + 0.5).Floor;
      assert n as real <= 1000.0 * -x + 0.5 < n as real + 1.0;
      assert Round3(x) <= threshold <==> (-n) as real <= 1000.0 * threshold;
      assert (-n) as real <= 1000.0 * threshold <==> -n <= t;
    }
  }

  // ---------- The filter ----------

  /** The dollar value before rounding; a missing or zero rate counts as zero. */
  function Worth(rates: Rates, b: Balance): real {
    if b.currencySlug in rates then rates[b.currencySlug] * b.value else 0.0
  }

  function Usd(rates: Rates, b: Balance): real {
    Round3(Worth(rates, b))
  }

  lemma WithRate(rates: Rates, b: Balance, product: real)
    requires b.currencySlug in rates && product == rates[b.currencySlug] * b.value
    ensures Usd(rates, b) == Round3(product)
  {
    assert Worth(rates, b) == product;
  }

  lemma WithoutRate(rates: Rates, b: Balance)
    requires b.currencySlug !in rates
    ensures Usd(rates, b) == 0.0
  {
    Round3OfZero(0.0);
  }

  /** The dollar value is rate times value to the nearest thousandth, and zero without a rate. */
  lemma UsdIsRateTimesValue(rates: Rates, b: Balance)
    ensures b.currencySlug in rates ==>
      && -0.0005 <= Usd(rates, b) - rates[b.currencySlug] * b.value <= 0.0005
      && Usd(rates, b) == Round3(rates[b.currencySlug] * b.value)
      && InThousandths(Usd(rates, b))
    ensures b.currencySlug !in rates ==> Usd(rates, b) == 0.0
  {
    if b.currencySlug in rates {
      var product := rates[b.currencySlug] * b.value;
      WithRate(rates, b, product);
      Round3IsClose(product);
    } else {
      WithoutRate(rates, b);
    }
  }

  lemma NoRateNoWorth(rates: Rates, b: Balance)
    requires b.currencySlug in rates ==> rates[b.currencySlug] == 0.0
    ensures Usd(rates, b) == 0.0
  {
    if b.currencySlug in rates {
      assert rates[b.currencySlug] * b.value == 0.0 * b.value;
    }
    Round3OfZero(Worth(rates, b));
  }

  /** The wallet is reported. */
  predicate Low(rates: Rates, minimum: Rates, b: Balance) {
    b.currencySlug in minimum && Usd(rates, b) <= minimum[b.currencySlug]
  }

  /** The places of the reported wallets among the first `n`, in order. */
  function LowPlaces(rates: Rates, minimum: Rates, balances: seq<Balance>, n: nat): (places: seq<nat>)
    requires n <= |balances|
    ensures forall p | 0 <= p < |places| :: places[p] < n && Low(rates, minimum, balances[places[p]])
    ensures forall p, q | 0 <= p < q < |places| :: places[p] < places[q]
    ensures forall k | 0 <= k < n && Low(rates, minimum, balances[k]) :: k in places
  {
    if n == 0 then []
    else
      var places := LowPlaces(rates, minimum, balances, n - 1);
      if Low(rates, minimum, balances[n - 1]) then places + [n - 1] else places
  }

  function Notices(rates: Rates, minimum: Rates, balances: seq<Balance>, n: nat): seq<Notice>
    requires n <= |balances|
  {
    var places := LowPlaces(rates, minimum, balances, n);
    seq(|places|, p requires 0 <= p < |places| =>
      Notice(balances[places[p]].currencySlug, Usd(rates, balances[places[p]]), "USD"))
  }

  function Raw(balances: seq<Balance>): seq<Notice> {
    seq(|balances|, n requires 0 <= n < |balances| =>
      Notice(balances[n].currencySlug, balances[n].value, balances[n].currencySlug))
  }

  /** A wallet is reported exactly when rate times value is below its threshold, cut to three places, plus half a
      thousandth; a threshold given in thousandths is not cut. A wallet without a rate is reported whenever its
      threshold is not negative. */
  lemma ReportedIff(rates: Rates, minimum: Rates, b: Balance)
    requires b.currencySlug in minimum && minimum[b.currencySlug] >= 0.0
    ensures b.currencySlug in rates ==>
      (Low(rates, minimum, b) <==> rates[b.currencySlug] * b.value < Floor3(minimum[b.currencySlug]) + 0.0005)
    ensures b.currencySlug in rates && InThousandths(minimum[b.currencySlug]) ==>
      (Low(rates, minimum, b) <==> rates[b.currencySlug] * b.value < minimum[b.currencySlug] + 0.0005)
    ensures b.currencySlug !in rates ==> Low(rates, minimum, b)
  {
    RoundedWithinIff(Worth(rates, b), minimum[b.currencySlug]);
    var t := (1000.0 * minimum[b.currencySlug]).Floor;
    assert t >= 0;
  }

  /** `quantize` of the product, or plain zero when the rate is missing or zero. */
  method UsdBalance(rates: Rates, b: Balance) returns (usd: real)
    ensures b.currencySlug in rates ==> -0.0005 <= usd - rates[b.currencySlug] * b.value <= 0.0005
    ensures b.currencySlug !in rates ==> usd == 0.0
    ensures usd == Usd(rates, b)
  {
    UsdIsRateTimesValue(rates, b);
    if b.currencySlug in rates && rates[b.currencySlug] != 0.0 {
      usd := Round3(rates[b.currencySlug] * b.value);
    } else {
      usd := 0.0;
      NoRateNoWorth(rates, b);
    }
  }

  /** The lines are those of the wallets at these places: in order, those and only those whose dollar value is within
      their threshold, each with that amount. */
  ghost predicate LinesOf(rates: Rates, minimum: Rates, balances: seq<Balance>, places: seq<nat>, lines: seq<Notice>) {
    && |lines| == |places|
    && (forall p, q | 0 <= p < q < |places| :: places[p] < places[q])
    && (forall p | 0 <= p < |places| :: places[p] < |balances|)
    && (forall k | 0 <= k < |balances| :: k in places <==>
          && balances[k].currencySlug in minimum && Usd(rates, balances[k]) <= minimum[balances[k].currencySlug])
    && (forall p | 0 <= p < |places| ::
          lines[p] == Notice(balances[places[p]].currencySlug, Usd(rates, balances[places[p]]), "USD"))
  }

  lemma LinesInPlainTerms(rates: Rates, minimum: Rates, balances: seq<Balance>)
    ensures LinesOf(rates, minimum, balances, LowPlaces(rates, minimum, balances, |balances|),
                    Notices(rates, minimum, balances, |balances|))
  {
  }

  /** What becomes of a report. Nothing is posted for an empty one; otherwise the text posted is empty, whatever the
      report says, and the call ends in an error, because the decoded answer of the mail service is asked for a
      status check that it does not have. */
  method SendMail(report: Report) returns (posted: Option<string>, raised: bool)
    ensures raised <==> report.wallets != []
    ensures posted == if raised then Some("") else None
  {
    if report.wallets == [] {
      return None, false;
    }
    return Some(""), true;
  }

  /** The run: without rates it reports every wallet with a warning; with rates the low ones, in order. It comes to
      no report exactly when some wallet has no threshold; and it ends without an error exactly when it comes to an
      empty one. */
  method CheckWallets(balances: seq<Balance>, rates: Option<Rates>, minimum: Rates)
    returns (report: Option<Report>, posted: Option<string>, raised: bool)
    ensures rates.None? || rates.value == map[] ==>
      && report.Some? && report.value.warning && |report.value.wallets| == |balances|
      && forall n | 0 <= n < |balances| :: report.value.wallets[n] ==
           Notice(balances[n].currencySlug, balances[n].value, balances[n].currencySlug)
    ensures rates.Some? && rates.value != map[] ==>
      && (report.None? <==> exists n :: 0 <= n < |balances| && balances[n].currencySlug !in minimum)
      && (report.Some? ==> report.value == Report(Notices(rates.value, minimum, balances, |balances|), false))
      && (report.Some? ==> exists places :: LinesOf(rates.value, minimum, balances, places, report.value.wallets))
    ensures raised <==> !(report.Some? && report.value.wallets == [])
    ensures posted == if report.Some? && report.value.wallets != [] then Some("") else None
  {
    if rates.None? || rates.value == map[] {
      report := Some(Report(Raw(balances), true));
      posted, raised := SendMail(report.value);
      return;
    }
    var result: seq<Notice> := [];
    for n := 0 to |balances|
      invariant forall k | 0 <= k < n :: balances[k].currencySlug in minimum
      invariant result == Notices(rates.value, minimum, balances, n)
    {
      var b := balances[n];
      var usd := UsdBalance(rates.value, b);
      if b.currencySlug !in minimum {
        return None, None, true;
      }
      if usd <= minimum[b.currencySlug] {
        result := result + [Notice(b.currencySlug, usd, "USD")];
      }
    }
    LinesInPlainTerms(rates.value, minimum, balances);
    report := Some(Report(result, false));
    posted, raised := SendMail(report.value);
  }
}
