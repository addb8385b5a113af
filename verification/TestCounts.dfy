/** The test-count contract of a generated problem
    (backend/internal/domain/testcase.go:180-346). */
module TestCounts {

  const MAX_GENERATED := 32
  const MIN_ADAPTIVE := 10
  const MAX_ADAPTIVE := 20

  /** The fields of TestDataConfig that bear on counts. */
  datatype Config = Config(
    numTestCases: int, minTestCases: int, maxTestCases: int, autoCaseCount: bool, numSamples: int,
    customCases: seq<string>)

  /** The configuration that normalising leaves behind, and whether it is accepted; a
      refused configuration may have been changed too. */
  function Normalized(c: Config): (Config, bool) {
    if c.numTestCases < 0 || c.numSamples < 0 then (c, false)
    else if c.autoCaseCount && c.numTestCases > 0 then
      if c.numTestCases < MIN_ADAPTIVE || c.numTestCases > MAX_ADAPTIVE then (c, false)
      else Adaptive(c.(numTestCases := 0, minTestCases := MIN_ADAPTIVE, maxTestCases := c.numTestCases))
    else if c.numTestCases == 0 then Adaptive(c)
    else if c.numTestCases > MAX_GENERATED then (c, false)
    else (c.(minTestCases := 0, maxTestCases := 0), c.numSamples <= c.numTestCases)
  }

  function Adaptive(c: Config): (Config, bool) {
    var filled := c.(minTestCases := if c.minTestCases == 0 then MIN_ADAPTIVE else c.minTestCases,
                     maxTestCases := if c.maxTestCases == 0 then MAX_ADAPTIVE else c.maxTestCases);
    (filled,
     && filled.minTestCases >= MIN_ADAPTIVE && filled.maxTestCases <= MAX_ADAPTIVE
     && filled.minTestCases <= filled.maxTestCases
     && filled.numSamples <= filled.maxTestCases && |filled.customCases| <= filled.maxTestCases)
  }

  function Max(a: int, b: int): int { if b > a then b else a }

  /** EffectiveTestCaseRange: smallest count, largest count, adaptive or not. */
  function EffectiveRange(c: Config): (int, int, bool) {
    if c.numTestCases > 0 && !c.autoCaseCount then (c.numTestCases, c.numTestCases, false)
    else if c.numTestCases > 0 then
      (Max(Max(MIN_ADAPTIVE, c.numSamples), |c.customCases|),
       if c.numTestCases > MAX_ADAPTIVE then MAX_ADAPTIVE else c.numTestCases, true)
    else
      (Max(Max(if c.minTestCases == 0 then MIN_ADAPTIVE else c.minTestCases, c.numSamples), |c.customCases|),
       if c.maxTestCases == 0 then MAX_ADAPTIVE else c.maxTestCases, true)
  }

  /** ValidateGeneratedTestCaseCount */
  predicate AcceptsCount(c: Config, actual: int) {
    var range := EffectiveRange(c);
    actual > 0 && actual <= range.1 && (range.2 ==> actual >= range.0)
  }

  /** Validate, which does not change the configuration. */
  predicate ValidConfig(c: Config) {
    if c.autoCaseCount && c.numTestCases > 0 then
      var range := EffectiveRange(c);
      && MIN_ADAPTIVE <= c.numTestCases <= MAX_ADAPTIVE
      && |c.customCases| <= range.1 && range.0 <= range.1 && 0 <= c.numSamples <= range.1
    else Normalized(c).1
  }

  class TestDataConfig {
    var numTestCases: int
    var minTestCases: int
    var maxTestCases: int
    var autoCaseCount: bool
    var numSamples: int
    var customCases: seq<string>

    constructor (c: Config)
      ensures Value() == c
    {
      numTestCases, minTestCases, maxTestCases := c.numTestCases, c.minTestCases, c.maxTestCases;
      autoCaseCount, numSamples, customCases := c.autoCaseCount, c.numSamples, c.customCases;
    }

    function Value(): Config
      reads this
    {
      Config(numTestCases, minTestCases, maxTestCases, autoCaseCount, numSamples, customCases)
    }

    /** NormalizeForGeneration */
    method NormalizeForGeneration() returns (ok: bool)
      modifies this
      ensures (Value(), ok) == Normalized(old(Value()))
    {
      if numTestCases < 0 {
        return false;
      }
      if numSamples < 0 {
        return false;
      }
      if autoCaseCount && numTestCases > 0 {
        if numTestCases < MIN_ADAPTIVE || numTestCases > MAX_ADAPTIVE {
          return false;
        }
        var max := numTestCases;
        numTestCases := 0;
        minTestCases := MIN_ADAPTIVE;
        maxTestCases := max;
      }
      if numTestCases == 0 {
        if minTestCases == 0 {
          minTestCases := MIN_ADAPTIVE;
        }
        if maxTestCases == 0 {
          maxTestCases := MAX_ADAPTIVE;
        }
        if minTestCases < MIN_ADAPTIVE || maxTestCases > MAX_ADAPTIVE || minTestCases > maxTestCases {
          return false;
        }
        if numSamples > maxTestCases {
          return false;
        }
        if |customCases| > maxTestCases {
          return false;
        }
        return true;
      }
      if numTestCases > MAX_GENERATED {
        return false;
      }
      minTestCases := 0;
      maxTestCases := 0;
      if numSamples > numTestCases {
        return false;
      }
      ok := true;
    }
  }

  /** Normalising an accepted configuration changes nothing that matters: it is idempotent,
      the range of counts stays the same and holds a count, so the same generated suites are
      accepted before and after; and every accepted suite has room for the samples. */
  lemma NormalizingKeepsMeaning(c: Config)
    requires Normalized(c).1
    ensures var n := Normalized(c).0;
            && Normalized(n) == (n, true)
            && EffectiveRange(n) == EffectiveRange(c) && EffectiveRange(c).0 <= EffectiveRange(c).1
            && AcceptsCount(c, EffectiveRange(c).1)
            && forall actual :: AcceptsCount(n, actual) <==> AcceptsCount(c, actual)
    ensures forall actual | AcceptsCount(c, actual) ::
              1 <= actual <= MAX_GENERATED
              && (EffectiveRange(c).2 ==> c.numSamples <= actual && |c.customCases| <= actual)
  {
  }

  /** Validate accepts exactly what normalising accepts. */
  lemma ValidMeansNormalizes(c: Config)
    ensures ValidConfig(c) <==> Normalized(c).1
  {
  }

  /** Exactly these configurations are accepted. */
  lemma AcceptedExactly(c: Config)
    ensures Normalized(c).1 <==>
            && c.numSamples >= 0
            && if c.numTestCases == 0 then
                 var min, max := if c.minTestCases == 0 then 10 else c.minTestCases,
                                 if c.maxTestCases == 0 then 20 else c.maxTestCases;
                 10 <= min <= max <= 20 && c.numSamples <= max && |c.customCases| <= max
               else if c.autoCaseCount then
                 10 <= c.numTestCases <= 20 && c.numSamples <= c.numTestCases && |c.customCases| <= c.numTestCases
               else 1 <= c.numTestCases <= 32 && c.numSamples <= c.numTestCases
  {
  }

  /** Exactly these numbers of generated cases are accepted for an accepted configuration. */
  lemma AcceptedCounts(c: Config, actual: int)
    requires Normalized(c).1
    ensures AcceptsCount(c, actual) <==>
            if c.numTestCases > 0 && !c.autoCaseCount then 1 <= actual <= c.numTestCases
            else
              && (if c.numTestCases > 0 || c.minTestCases == 0 then 10 else c.minTestCases) <= actual
              && actual <= (if c.numTestCases > 0 then c.numTestCases
                            else if c.maxTestCases == 0 then 20 else c.maxTestCases)
              && c.numSamples <= actual && |c.customCases| <= actual
  {
  }

  /** What normalising leaves behind: an explicit count with no bounds, or no count and the
      bounds spelled out; the samples, the custom cases and the flag stay. */
  lemma NormalForm(c: Config)
    requires Normalized(c).1
    ensures var n := Normalized(c).0;
            && n.numSamples == c.numSamples && n.customCases == c.customCases && n.autoCaseCount == c.autoCaseCount
            && if c.numTestCases > 0 && !c.autoCaseCount then
                 n.numTestCases == c.numTestCases && n.minTestCases == 0 && n.maxTestCases == 0
               else
                 && n.numTestCases == 0
                 && n.minTestCases == (if c.numTestCases > 0 || c.minTestCases == 0 then 10 else c.minTestCases)
                 && n.maxTestCases == (if c.numTestCases > 0 then c.numTestCases
                                       else if c.maxTestCases == 0 then 20 else c.maxTestCases)
  {
  }
}
