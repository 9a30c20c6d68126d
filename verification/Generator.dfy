// The password generator of src/generator.rs: which characters a configuration allows, and the
// bitmask loop of strict generation, which must mean "every pool was hit".

module Generator {
  import opened Bits
  import opened Results

  const NUMBERS: string := "0123456789"
  const LOWERCASE_LETTERS: string := "abcdefghijklmnopqrstuvwxyz"
  const UPPERCASE_LETTERS: string := "ABCDEFGHIJKLMNOPQRSTUVWXYZ"
  const SYMBOLS_ALL: string := "!@#$%^&*()-_+=?,.:;[]{|}/'\"\\<>`~"

  /** An i32 mask has room for this many pools. */
  const MASK_POOLS: nat := 30

  datatype Config = Config(
    length: nat, numbers: bool, upper: bool, lower: bool, useSymbols: bool, symbols: seq<bool>)
  {
    ghost predicate Valid() {
      |symbols| == |SYMBOLS_ALL| == 32
    }
  }

  // ---- The pools of a configuration ----

  /** The characters a configuration asks for, class by class. */
  ghost predicate Allows(config: Config, c: char)
    requires config.Valid()
  {
    AllowsLetter(config, c) || (config.useSymbols && Chosen(config, c))
  }

  ghost predicate Disjoint(pools: seq<string>) {
    forall i, j, c :: 0 <= i < j < |pools| && c in pools[i] ==> c !in pools[j]
  }

  ghost predicate NoneEmpty(pools: seq<string>) {
    forall i :: 0 <= i < |pools| ==> pools[i] != ""
  }

  ghost predicate InSome(pools: seq<string>, c: char) {
    exists i :: 0 <= i < |pools| && c in pools[i]
  }

  /** One more pool, of characters no earlier pool has. */
  lemma OneMorePool(pools: seq<string>, pool: string)
    requires NoneEmpty(pools) && Disjoint(pools) && pool != ""
    requires forall c :: c in pool ==> !InSome(pools, c)
    ensures NoneEmpty(pools + [pool]) && Disjoint(pools + [pool])
    ensures forall c :: InSome(pools + [pool], c) <==> InSome(pools, c) || c in pool
  {
    var more := pools + [pool];
    forall c ensures InSome(more, c) <==> InSome(pools, c) || c in pool {
      assert more[|pools|] == pool && forall i :: 0 <= i < |pools| ==> more[i] == pools[i];
    }
    forall i, j, c | 0 <= i < j < |more| && c in more[i] ensures c !in more[j] {
      assert InSome(pools, c);
    }
  }

  /** The pools of a configuration: no two overlap, none is empty, together exactly what it allows. */
  method ToPools(config: Config) returns (pools: seq<string>)
    requires config.Valid()
    ensures |pools| <= 4 && NoneEmpty(pools) && Disjoint(pools)
    ensures forall c :: InSome(pools, c) <==> Allows(config, c)
  {
    hide LOWERCASE_LETTERS, UPPERCASE_LETTERS, NUMBERS, SYMBOLS_ALL, InSome, NoneEmpty, Disjoint;
    LettersAndDigits();
    NoPools();
    pools := [];
    if config.lower {
      OneMorePool(pools, LOWERCASE_LETTERS);
      pools := pools + [LOWERCASE_LETTERS];
    }
    assert forall c :: InSome(pools, c) <==> config.lower && c in LOWERCASE_LETTERS;
    if config.upper {
      OneMorePool(pools, UPPERCASE_LETTERS);
      pools := pools + [UPPERCASE_LETTERS];
    }
    if config.numbers {
      OneMorePool(pools, NUMBERS);
      pools := pools + [NUMBERS];
    }
    assert forall c :: InSome(pools, c) <==> AllowsLetter(config, c);
    if config.useSymbols {
      var specials := Specials(config);
      if |specials| > 0 {
        forall c | c in specials ensures !AllowsLetter(config, c) {
          SymbolsAreOthers(config, c);
        }
        OneMorePool(pools, specials);
        pools := pools + [specials];
      }
    }
  }

  /** The letters and digits among what a configuration asks for. */
  predicate AllowsLetter(config: Config, c: char) {
    || (config.lower && 'a' <= c <= 'z')
    || (config.upper && 'A' <= c <= 'Z')
    || (config.numbers && '0' <= c <= '9')
  }

  /** The chosen symbols. */
  method Specials(config: Config) returns (specials: string)
    requires config.Valid()
    ensures forall c :: c in specials <==> Chosen(config, c)
    ensures specials == "" ==> forall c :: !Chosen(config, c)
  {
    specials := "";
    for i := 0 to 32
      invariant forall c :: c in specials <==> exists k :: 0 <= k < i && config.symbols[k] && SYMBOLS_ALL[k] == c
    {
      if config.symbols[i] {
        specials := specials + [SYMBOLS_ALL[i]];
      }
    }
    assert specials == "" ==> forall c :: c !in specials;
  }

  ghost predicate Chosen(config: Config, c: char)
    requires config.Valid()
  {
    exists i :: 0 <= i < 32 && config.symbols[i] && SYMBOLS_ALL[i] == c
  }

  lemma NoPools()
    ensures NoneEmpty([]) && Disjoint([]) && forall c :: !InSome([], c)
  {
  }

  lemma LettersAndDigits()
    ensures LOWERCASE_LETTERS != "" && UPPERCASE_LETTERS != "" && NUMBERS != ""
    ensures forall c :: c in LOWERCASE_LETTERS <==> 'a' <= c <= 'z'
    ensures forall c :: c in UPPERCASE_LETTERS <==> 'A' <= c <= 'Z'
    ensures forall c :: c in NUMBERS <==> '0' <= c <= '9'
  {
    Lower();
    Upper();
    Digits();
  }

  lemma Lower()
    ensures forall c :: c in LOWERCASE_LETTERS <==> 'a' <= c <= 'z'
  {
    forall c | 'a' <= c <= 'z' ensures c in LOWERCASE_LETTERS {
      assert LOWERCASE_LETTERS[c as int - 'a' as int] == c;
    }
  }

  lemma Upper()
    ensures forall c :: c in UPPERCASE_LETTERS <==> 'A' <= c <= 'Z'
  {
    forall c | 'A' <= c <= 'Z' ensures c in UPPERCASE_LETTERS {
      assert UPPERCASE_LETTERS[c as int - 'A' as int] == c;
    }
  }

  lemma Digits()
    ensures forall c :: c in NUMBERS <==> '0' <= c <= '9'
  {
    forall c | '0' <= c <= '9' ensures c in NUMBERS {
      assert NUMBERS[c as int - '0' as int] == c;
    }
  }

  lemma Symbols()
    ensures |SYMBOLS_ALL| == 32
    ensures forall i :: 0 <= i < 32 ==>
      var c := SYMBOLS_ALL[i]; !('a' <= c <= 'z') && !('A' <= c <= 'Z') && !('0' <= c <= '9')
  {
  }

  lemma SymbolsAreOthers(config: Config, c: char)
    requires config.Valid() && Chosen(config, c)
    ensures !AllowsLetter(config, c)
  {
    Symbols();
    hide SYMBOLS_ALL;
  }

  // ---- Strict generation ----

  ghost predicate Hits(pool: string, draw: string) {
    exists k :: 0 <= k < |draw| && draw[k] in pool
  }

  /** The promise of strict generation: at least one character from each pool. */
  ghost predicate HitsEvery(pools: seq<string>, draw: string) {
    draw != "" && forall i :: 0 <= i < |pools| ==> Hits(pools[i], draw)
  }

  /** The mask holds a bit for every pool hit so far, and nothing else; it stays an i32. */
  ghost predicate Masks(mask: nat, pools: seq<string>, seen: string) {
    && mask < Pow2(|pools|)
    && forall i :: 0 <= i < |pools| ==> (Bit(mask, i) <==> Hits(pools[i], seen))
  }

  ghost predicate AllSet(mask: nat, n: nat) {
    forall i :: 0 <= i < n ==> Bit(mask, i)
  }

  /** A mask of n bits equals the target exactly when every bit is set. */
  lemma FullMask(mask: nat, n: nat)
    requires mask < Pow2(n)
    ensures mask == Pow2(n) - 1 <==> AllSet(mask, n)
  {
    var target := Pow2(n) - 1;
    forall i | 0 <= i < n ensures Bit(target, i) {
      BitOfLowOnes(n, i);
    }
    if AllSet(mask, n) {
      SameBits(mask, target, n);
    }
  }

  /** One more character: set the bit of every pool that has it. */
  method Mark(mask: nat, pools: seq<string>, ghost seen: string, c: char) returns (r: nat)
    requires Masks(mask, pools, seen)
    ensures Masks(r, pools, seen + [c])
  {
    r := mask;
    for i := 0 to |pools|
      invariant r < Pow2(|pools|)
      invariant forall j :: 0 <= j < |pools| ==>
        (Bit(r, j) <==> Hits(pools[j], seen) || (j < i && c in pools[j]))
    {
      if c in pools[i] {
        ghost var before := r;
        SettingFits(r, i, |pools|);
        r := Or(r, Pow2(i));
        forall j | 0 <= j < |pools| ensures Bit(r, j) <==> i == j || Bit(before, j) {
          SettingABit(before, i, j);
        }
      }
    }
    forall j | 0 <= j < |pools| ensures Hits(pools[j], seen + [c]) <==> Hits(pools[j], seen) || c in pools[j] {
      HitsGrow(pools[j], seen, c);
    }
  }

  lemma HitsGrow(pool: string, seen: string, c: char)
    ensures Hits(pool, seen + [c]) <==> Hits(pool, seen) || c in pool
  {
    var more := seen + [c];
    assert more[|seen|] == c && forall k :: 0 <= k < |seen| ==> more[k] == seen[k];
  }

  /** Check one draw: copy it into the password while the mask fills up. */
  method Handle(random: string, pools: seq<string>) returns (password: string, m: bool)
    requires |pools| <= MASK_POOLS
    ensures password == random
    ensures m <==> HitsEvery(pools, random)
  {
    var mask: nat := 0;
    var targetMask := Pow2(|pools|) - 1;
    forall j | 0 <= j < |pools| ensures !Bit(0, j) {
      BitOfZero(j);
    }
    password, m := "", false;
    for k := 0 to |random|
      invariant password == random[..k]
      invariant m <==> HitsEvery(pools, password)
      invariant !m ==> Masks(mask, pools, password)
    {
      ghost var seen := password;
      password := password + [random[k]];
      assert random[..k + 1] == password;
      if m {
        forall j | 0 <= j < |pools| ensures Hits(pools[j], password) {
          HitsGrow(pools[j], seen, random[k]);
        }
      } else {
        mask := Mark(mask, pools, seen, random[k]);
        FullMask(mask, |pools|);
        assert AllSet(mask, |pools|) <==> forall j :: 0 <= j < |pools| ==> Hits(pools[j], password);
        m := mask == targetMask;
      }
    }
    assert random[..|random|] == random;
  }

  /** What the random picker yields: the length asked for, from the pools' union; nothing from nothing. */
  ghost predicate IsDraw(pools: seq<string>, length: nat, draw: string) {
    && (forall k :: 0 <= k < |draw| ==> InSome(pools, draw[k]))
    && |draw| == if exists c :: InSome(pools, c) then length else 0
  }

  /**
   * Generation over the draws the random source would make, in order; None when none of them
   * satisfies a strict caller, who would still be drawing.
   */
  method Generate(pools: seq<string>, length: nat, strict: bool, draws: seq<string>) returns (password: Option<string>)
    requires |pools| <= MASK_POOLS
    requires draws != [] && forall k :: 0 <= k < |draws| ==> IsDraw(pools, length, draws[k])
    ensures !strict ==> password == Some(draws[0])
    ensures strict && password.Some? ==> exists k ::
      && 0 <= k < |draws| && draws[k] == password.value && HitsEvery(pools, draws[k])
      && (forall j :: 0 <= j < k ==> !HitsEvery(pools, draws[j]))
    ensures strict && password.None? ==> forall j :: 0 <= j < |draws| ==> !HitsEvery(pools, draws[j])
    ensures password.Some? ==> IsDraw(pools, length, password.value)
  {
    if !strict {
      return Some(draws[0]);
    }
    var text, m := Handle(draws[0], pools);
    var k := 0;
    while !m
      invariant k < |draws| && text == draws[k]
      invariant m <==> HitsEvery(pools, draws[k])
      invariant forall j :: 0 <= j < k ==> !HitsEvery(pools, draws[j])
      decreases |draws| - k, !m
    {
      k := k + 1;
      if k == |draws| {
        return None;
      }
      text, m := Handle(draws[k], pools);
    }
    return Some(text);
  }

  // ---- When strict generation can succeed at all ----

  function Outside(draw: string, pool: string): (r: string)
    ensures forall c :: c in r <==> c in draw && c !in pool
    ensures |r| <= |draw| && ((exists c :: c in draw && c in pool) ==> |r| < |draw|)
  {
    if draw == "" then ""
    else (if draw[0] in pool then "" else [draw[0]]) + Outside(draw[1..], pool)
  }

  /** Disjoint pools need a character each. */
  lemma {:induction false} EachPoolTakesACharacter(pools: seq<string>, draw: string)
    requires Disjoint(pools)
    requires forall i :: 0 <= i < |pools| ==> Hits(pools[i], draw)
    ensures |draw| >= |pools|
    decreases |pools|
  {
    if pools != [] {
      var last := |pools| - 1;
      var rest := Outside(draw, pools[last]);
      assert Hits(pools[last], draw);
      forall i | 0 <= i < last ensures Hits(pools[..last][i], rest) {
        var k :| 0 <= k < |draw| && draw[k] in pools[i];
        assert draw[k] in rest;
      }
      EachPoolTakesACharacter(pools[..last], rest);
    }
  }

  /** A draw that works: a character of each pool, then the first pool's again. */
  function Sample(pools: seq<string>, length: nat): string
    requires 0 < |pools| && forall i :: 0 <= i < |pools| ==> pools[i] != ""
  {
    seq(length, k requires 0 <= k => if k < |pools| then pools[k][0] else pools[0][0])
  }

  /**
   * For the pools of a configuration, some draw ends strict generation exactly when there is a
   * pool and the length has room for one character of each.
   */
  lemma StrictCanSucceedIff(pools: seq<string>, length: nat)
    requires NoneEmpty(pools) && Disjoint(pools)
    ensures (exists draw :: IsDraw(pools, length, draw) && HitsEvery(pools, draw)) <==> 1 <= |pools| <= length
  {
    if 1 <= |pools| <= length {
      SampleWorks(pools, length);
    }
    forall draw | IsDraw(pools, length, draw) && HitsEvery(pools, draw) ensures 1 <= |pools| <= length {
      assert InSome(pools, draw[0]);
      EachPoolTakesACharacter(pools, draw);
    }
  }

  lemma SampleWorks(pools: seq<string>, length: nat)
    requires NoneEmpty(pools) && 1 <= |pools| <= length
    ensures IsDraw(pools, length, Sample(pools, length)) && HitsEvery(pools, Sample(pools, length))
  {
    var draw := Sample(pools, length);
    assert InSome(pools, pools[0][0]);
    forall k | 0 <= k < length ensures InSome(pools, draw[k]) {
      var i := if k < |pools| then k else 0;
      assert draw[k] in pools[i];
    }
    forall i | 0 <= i < |pools| ensures Hits(pools[i], draw) {
      assert draw[i] in pools[i];
    }
  }
}
