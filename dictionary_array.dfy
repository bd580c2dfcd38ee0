/** The password part picked from an in-memory word list. */
module DictionaryArray {
  import opened Errors
  import opened Bits
  import opened Entropy
  import opened Prng
  import opened KeyGenerator
  import opened Settings

  const DefaultDictionary: seq<string> := ["-"]

  /** init(settings): the list under "dictionary" replaces the dictionary
      when it is set and is an array; anything else changes nothing. */
  function Configure(dictionary: seq<string>, s: Settings): (r: seq<string>)
    ensures !(IsSet(s, "dictionary") && s.entries["dictionary"].Words?) ==> r == dictionary
    ensures IsSet(s, "dictionary") && s.entries["dictionary"].Words? ==> r == s.entries["dictionary"].words
  {
    if s.Entries? && "dictionary" in s.entries && s.entries["dictionary"].Words? then s.entries["dictionary"].words
    else dictionary
  }

  /** generate(): the entry at an index drawn by getRandomNumber(0, size - 1).
      The PRNG is not involved. */
  function Pick(dev: Device, pool: seq<Byte>, prng: PrngState, dictionary: seq<string>): (r: Run<string>)
    ensures r.prng == prng
    ensures r.result.Success? ==> r.result.value in dictionary
    ensures |dictionary| == 0 ==> r == Run(Failure(MinAboveMax), pool, prng)
    ensures |dictionary| == 1 ==> r == Run(Success(dictionary[0]), pool, prng)
    ensures r.result.Failure? ==> r.result.error != MinAboveMax ==> |dictionary| > 1
  {
    var s := RandomNumber(dev, pool, 0, |dictionary| - 1);
    if s.result.Failure? then Run(Failure(s.result.error), s.rest, prng)
    else Run(Success(dictionary[s.result.value]), s.rest, prng)
  }

  /** The default dictionary always gives its one word and draws nothing. */
  lemma DefaultPicksDash(dev: Device, pool: seq<Byte>, prng: PrngState)
    ensures Pick(dev, pool, prng, DefaultDictionary) == Run(Success("-"), pool, prng)
  {
  }

  class DictionaryArrayAlgorithm {
    const keygen: KeyGen
    var dictionary: seq<string>
    var dictionarySize: int

    /** The cached size agrees with the dictionary. */
    ghost predicate Valid()
      reads this
    {
      dictionarySize == |dictionary|
    }

    /** A new instance over `dictionary` (re-indexed from 0, which a
        sequence already is), with a key generator of its own. */
    constructor (entropy: EntropyDevice, prng: MersenneTwister, dictionary: seq<string> := DefaultDictionary)
      ensures Valid() && fresh(keygen)
      ensures keygen.entropy == entropy && keygen.prng == prng
      ensures this.dictionary == dictionary
    {
      this.dictionary := dictionary;
      dictionarySize := |dictionary|;
      keygen := new KeyGen(entropy, prng);
    }

    method Init(s: Settings)
      requires Valid()
      modifies this
      ensures Valid()
      ensures dictionary == Configure(old(dictionary), s)
    {
      if !s.Entries? {
        return;
      }
      if IsSet(s, "dictionary") && s.entries["dictionary"].Words? {
        dictionary := s.entries["dictionary"].words;
        dictionarySize := |dictionary|;
      }
    }

    /** Only the random device changes; the dictionary and its size do not. */
    method Generate() returns (r: Result<string>)
      requires Valid()
      modifies keygen.entropy
      ensures Run(r, keygen.entropy.pool, keygen.prng.State())
           == Pick(keygen.entropy.Status(), old(keygen.entropy.pool), keygen.prng.State(), dictionary)
    {
      var entry: Result<int>;
      ghost var candidates: seq<int>;
      entry, candidates := keygen.GetRandomNumber(0, dictionarySize - 1);
      if entry.Failure? {
        return Failure(entry.error);
      }
      r := Success(dictionary[entry.value]);
    }
  }
}
