/** The subsidy in closed form, and exactly what all eras together mint. */
module Halving {
  import opened Types
  import opened Rules
  import opened Supply

  function Pow2(n: nat): (r: nat)
    ensures r > 0
  {
    if n == 0 then 1 else 2 * Pow2(n - 1)
  }

  lemma DivTwice(n: nat, a: nat)
    requires a > 0
    ensures (n / a) / 2 == n / (2 * a)
  {
    var q, r := n / a, n % a;
    TwoDigits(q / 2, q % 2, a, r);
    DivModUnique(n, 2 * a, q / 2, (q % 2) * a + r);
  }

  lemma TwoDigits(q: nat, digit: nat, a: nat, r: nat)
    requires digit < 2 && r < a
    ensures (2 * q + digit) * a + r == q * (2 * a) + (digit * a + r)
    ensures digit * a + r < 2 * a
  {
    assert (2 * q + digit) * a == 2 * (q * a) + digit * a;
  }

  lemma {:induction false} HalvedClosed(word: U64, times: nat)
    ensures Halved(word, times) == word / Pow2(times)
  {
    if times > 0 {
      HalvedClosed(word, times - 1);
      DivTwice(word, Pow2(times - 1));
    }
  }

  /** The subsidy at any number: the first subsidy divided by two to the power of the era, where eras are
      counted modulo 64. */
  lemma SubsidyClosed(config: Config, seqno: nat)
    ensures Subsidy(config, seqno)
            == config.initialBlockSubsidy / Pow2((seqno / config.blockSubsidyHalfPeriod) % 64)
  {
    HalvedClosed(config.initialBlockSubsidy, (seqno / config.blockSubsidyHalfPeriod) % 64);
  }

  /** One half period later the subsidy is half, rounded down, except after the last era of 64. */
  lemma SubsidyHalves(config: Config, seqno: nat)
    requires (seqno / config.blockSubsidyHalfPeriod) % 64 < 63
    ensures Subsidy(config, seqno + config.blockSubsidyHalfPeriod) == Subsidy(config, seqno) / 2
  {
    var h := config.blockSubsidyHalfPeriod;
    var q, r := seqno / h, seqno % h;
    assert seqno == q * h + r;
    assert (q + 1) * h == q * h + h;
    DivModUnique(seqno + h, h, q + 1, r);
    DivModUnique(q + 1, 64, q / 64, q % 64 + 1);
  }

  // ---------- whole eras ----------

  /** What one block of each of the first eras is paid. */
  function EraSum(word: U64, eras: nat): nat {
    if eras == 0 then 0 else EraSum(word, eras - 1) + Halved(word, eras - 1)
  }

  /** How many binary digits of a number are one. */
  function Ones(n: nat): nat {
    if n == 0 then 0 else n % 2 + Ones(n / 2)
  }

  lemma {:induction false} HalvedFromSecond(word: U64, times: nat)
    ensures Halved(word / 2, times) == Halved(word, times + 1)
  {
    if times > 0 {
      HalvedFromSecond(word, times - 1);
    }
  }

  lemma {:induction false} EraSumFromSecond(word: U64, eras: nat)
    ensures EraSum(word, eras + 1) == word + EraSum(word / 2, eras)
  {
    if eras > 0 {
      EraSumFromSecond(word, eras - 1);
      HalvedFromSecond(word, eras - 1);
    }
  }

  /** Halving a word until nothing is left adds up to twice the word, less one for each of its ones. */
  lemma {:induction false} EraSumClosed(word: U64, eras: nat)
    requires word < Pow2(eras)
    ensures EraSum(word, eras) == 2 * word - Ones(word)
    decreases eras
  {
    if eras > 0 {
      EraSumFromSecond(word, eras - 1);
      EraSumClosed(word / 2, eras - 1);
    }
  }

  lemma ShiftOfEra(word: U64, era: nat)
    requires era < 64
    ensures ShiftRight64(word, era) == Halved(word, era)
  {
    hide Halved;
    DivModUnique(era, 64, 0, era);
  }

  lemma SubsidyOfEra(config: Config, n: nat, era: nat)
    requires n / config.blockSubsidyHalfPeriod == era < 64
    ensures Subsidy(config, n) == Halved(config.initialBlockSubsidy, era)
  {
    hide Halved, ShiftRight64;
    ShiftOfEra(config.initialBlockSubsidy, era);
  }

  lemma SubsidyInEra(config: Config, start: nat, era: nat, n: nat)
    requires era < 64 && start == era * config.blockSubsidyHalfPeriod <= n < start + config.blockSubsidyHalfPeriod
    ensures Subsidy(config, n) == Halved(config.initialBlockSubsidy, era)
  {
    hide Halved, Subsidy;
    DivModUnique(n, config.blockSubsidyHalfPeriod, era, n - start);
    SubsidyOfEra(config, n, era);
  }

  /** Blocks of one price, one after the other. */
  lemma {:induction false} MintedRun(config: Config, start: nat, blocks: nat, paid: U64)
    requires forall n :: start <= n < start + blocks ==> Subsidy(config, n) == paid
    ensures MintedBefore(config, start + blocks) == MintedBefore(config, start) + blocks * paid
  {
    if blocks > 0 {
      MintedRun(config, start, blocks - 1, paid);
      hide Subsidy, MintedBefore;
      MintedBeforeNext(config, start + (blocks - 1));
      assert Subsidy(config, start + (blocks - 1)) == paid;
      OneMore(blocks - 1, paid);
    }
  }

  lemma MintedInEra(config: Config, era: nat)
    requires era < 64
    ensures var h := config.blockSubsidyHalfPeriod;
            MintedBefore(config, era * h + h)
            == MintedBefore(config, era * h) + h * Halved(config.initialBlockSubsidy, era)
  {
    hide Subsidy, MintedBefore, Halved;
    var h: nat := config.blockSubsidyHalfPeriod;
    var start := era * h;
    forall n | start <= n < start + h ensures Subsidy(config, n) == Halved(config.initialBlockSubsidy, era) {
      SubsidyInEra(config, start, era, n);
    }
    MintedRun(config, start, h, Halved(config.initialBlockSubsidy, era));
  }

  lemma MintedBeforeNext(config: Config, n: nat)
    ensures MintedBefore(config, n + 1) == MintedBefore(config, n) + Subsidy(config, n)
  {}

  lemma {:induction false} MintedEras(config: Config, eras: nat)
    requires eras <= 64
    ensures MintedBefore(config, eras * config.blockSubsidyHalfPeriod)
            == config.blockSubsidyHalfPeriod * EraSum(config.initialBlockSubsidy, eras)
  {
    var h: nat := config.blockSubsidyHalfPeriod;
    hide MintedBefore, Halved;
    if eras == 0 {
      NothingBefore(config);
    } else {
      MintedEras(config, eras - 1);
      MintedInEra(config, eras - 1);
      OneMore(eras - 1, h);
      Distribute(h, EraSum(config.initialBlockSubsidy, eras - 1), Halved(config.initialBlockSubsidy, eras - 1));
    }
  }

  lemma NothingBefore(config: Config)
    ensures MintedBefore(config, 0) == 0
  {}

  lemma Distribute(h: nat, a: nat, b: nat)
    ensures h * (a + b) == h * a + h * b
  {}

  lemma Pow2Of64()
    ensures Pow2(64) == U64_RANGE
  {
    assert Pow2(8) == 0x100;
    assert Pow2(16) == 0x1_0000;
    assert Pow2(24) == 0x100_0000;
    assert Pow2(32) == 0x1_0000_0000;
    assert Pow2(40) == 0x100_0000_0000;
    assert Pow2(48) == 0x1_0000_0000_0000;
    assert Pow2(56) == 0x100_0000_0000_0000;
  }

  /** The whole issue, exactly: the 64 eras before the subsidy starts over mint twice the first era's
      issue, less one unit per block of an era for each binary one of the first subsidy. */
  lemma WholeIssue(config: Config)
    ensures Minted(config, 64 * config.blockSubsidyHalfPeriod - 1)
            == config.blockSubsidyHalfPeriod * (2 * config.initialBlockSubsidy - Ones(config.initialBlockSubsidy))
    ensures config.initialBlockSubsidy > 0 ==> Ones(config.initialBlockSubsidy) > 0
  {
    hide Pow2, EraSum, Minted;
    Pow2Of64();
    EraSumClosed(config.initialBlockSubsidy, 64);
    MintedEras(config, 64);
    OnesPositive(config.initialBlockSubsidy);
  }

  lemma {:induction false} OnesPositive(n: nat)
    ensures n > 0 ==> Ones(n) > 0
  {
    if n > 1 {
      OnesPositive(n / 2);
    }
  }

  /** So the bound of twice the first era's issue, in closed form: it holds through those eras, and after
      them for as many blocks as the ones that halving lost pay for. */
  lemma BoundHoldsIff(config: Config, seqno: nat)
    requires config.initialBlockSubsidy > 0
    ensures var h, s := config.blockSubsidyHalfPeriod, config.initialBlockSubsidy;
            Minted(config, seqno) < 2 * s * h <==>
              seqno < 64 * h || (seqno < 65 * h && (seqno - 64 * h + 1) * s < h * Ones(s))
  {
    hide Minted, Ones, Subsidy;
    MintedBelowTwoErasIff(config, seqno);
    WholeIssue(config);
    LostToRounding(config.blockSubsidyHalfPeriod, config.initialBlockSubsidy, Ones(config.initialBlockSubsidy));
  }

  lemma LostToRounding(h: nat, s: nat, ones: nat)
    ensures h * (2 * s - ones) == 2 * s * h - h * ones
  {}

  /** With the default configuration the 64 eras mint just one unit per block of an era less than twice
      the first era's issue. */
  lemma DefaultIssue(config: Config)
    requires config.initialBlockSubsidy == 0x1000_0000_0000_0000 && config.blockSubsidyHalfPeriod == 210_000
    ensures Minted(config, 64 * 210_000 - 1) == 210_000 * (0x2000_0000_0000_0000 - 1)
    ensures Subsidy(config, 210_000) == 0x0800_0000_0000_0000
  {
    hide Subsidy, Minted, Ones;
    WholeIssue(config);
    OnesOfPower(60);
    Pow2Of60();
    SubsidyClosed(config, 210_000);
    assert Pow2(1) == 2;
  }

  lemma {:induction false} OnesOfPower(n: nat)
    ensures Ones(Pow2(n)) == 1
  {
    if n > 0 {
      OnesOfPower(n - 1);
    } else {
      assert Ones(1) == 1;
    }
  }

  lemma Pow2Of60()
    ensures Pow2(60) == 0x1000_0000_0000_0000
  {
    Pow2Of64();
    assert Pow2(64) == 16 * Pow2(60);
  }
}
