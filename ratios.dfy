/** The checks on --datapath and the two ratios, and the conversion of the ratios
    into image counts. Ratios are exact reals; the float rounding of the product
    N * ratio is not modelled. */
module Ratios {
  import opened Outcomes

  /** The three shares of the data set; the validation share is derived. */
  datatype Shares = Shares(train: real, test: real, val: real)

  /** Lines 26-34: a missing data directory is rejected first, then ratios that
      leave no room for validation; otherwise validation takes what is left. */
  function Validate(isDir: bool, train: real, test: real): (r: Result<Shares>)
    ensures r.Ok? <==> isDir && train + test < 1.0
    ensures !isDir ==> r == Err(DirectoryNotFound)
    ensures isDir && 1.0 <= train + test ==> r == Err(RatiosTooLarge)
    ensures r.Ok? ==> r.value.train == train && r.value.test == test
    ensures r.Ok? ==> 0.0 < r.value.val && r.value.train + r.value.test + r.value.val == 1.0
    ensures r.Ok? && 0.0 <= train && 0.0 <= test ==> r.value.val <= 1.0
  {
    if !isDir then Err(DirectoryNotFound)
    else if train + test >= 1.0 then Err(RatiosTooLarge)
    else Ok(Shares(train, test, 1.0 - (train + test)))
  }

  /** Python's int() on a float: truncation toward zero. */
  function Truncate(x: real): (r: int)
    ensures 0.0 <= x ==> r as real <= x < r as real + 1.0
    ensures x < 0.0 ==> r as real - 1.0 < x <= r as real
  {
    if 0.0 <= x then x.Floor else -((-x).Floor)
  }

  /** How many of the shuffled images go to each group. */
  datatype Counts = Counts(train: int, val: int, test: int)

  /** The product file_num * pct, exact. */
  function Scaled(n: nat, r: real): real
  {
    n as real * r
  }

  /** Lines 64-67: train and test counts are the truncated products, validation
      takes the rest, so the three always add up to the number of images. */
  function CountsFor(n: nat, train: real, test: real): (c: Counts)
    ensures c.train + c.val + c.test == n
  {
    var trainNum := Truncate(Scaled(n, train));
    var testNum := Truncate(Scaled(n, test));
    Counts(trainNum, n - (trainNum + testNum), testNum)
  }

  /** For ratios the validation accepts and that are not negative, every count
      lies between 0 and n, and a non-empty data set always leaves at least one
      image for validation. */
  lemma CountsInRange(n: nat, train: real, test: real)
    requires 0.0 <= train && 0.0 <= test && train + test < 1.0
    ensures var c := CountsFor(n, train, test);
      && 0 <= c.train <= n && 0 <= c.test <= n && 0 <= c.val <= n
      && (0 < n ==> 1 <= c.val)
  {
    ScaleWithin(n, train);
    ScaleWithin(n, test);
    ScaleWithin(n, train + test);
    if 0 < n {
      ScaleBelow(n, train + test);
    }
    Distribute(n, train, test);
    TruncatedShares(n, Scaled(n, train), Scaled(n, test));
  }

  /** The arithmetic core: two non-negative shares of n whose sum stays below n. */
  lemma TruncatedShares(n: nat, x: real, y: real)
    requires 0.0 <= x && 0.0 <= y && x + y <= n as real
    requires 0 < n ==> x + y < n as real
    ensures var t, u := Truncate(x), Truncate(y);
      && 0 <= t <= n && 0 <= u <= n && 0 <= n - (t + u) <= n
      && (0 < n ==> 1 <= n - (t + u))
  {
    var t, u := Truncate(x), Truncate(y);
    assert (t + u) as real <= x + y;
  }

  lemma Distribute(n: nat, a: real, b: real)
    ensures Scaled(n, a) + Scaled(n, b) == Scaled(n, a + b)
  {
  }

  lemma ScaleWithin(n: nat, r: real)
    requires 0.0 <= r <= 1.0
    ensures 0.0 <= Scaled(n, r) <= n as real
  {
    assert n as real * r <= n as real * 1.0;
  }

  lemma ScaleBelow(n: nat, r: real)
    requires 0 < n && r < 1.0
    ensures Scaled(n, r) < n as real
  {
    assert n as real * r < n as real * 1.0;
  }

  /** The run of the script's defaults on ten images: seven for training, two
      for testing, one for validation. */
  lemma DefaultRatiosOnTenImages()
    ensures CountsFor(10, 0.7, 0.2) == Counts(7, 1, 2)
  {
    assert (10.0 * 0.7).Floor == 7;
    assert (10.0 * 0.2).Floor == 2;
  }
}
