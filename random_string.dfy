/** The password part made of random characters: getRandomKeyStrong of a
    configurable length over the key generator's alphabet. */
module RandomString {
  import opened Errors
  import opened Bits
  import opened Entropy
  import opened Prng
  import opened KeyGenerator
  import opened Settings

  const DefaultLength: int := 8

  /** The configurable state: string_length and the key generator's alphabet. */
  datatype Config = Config(length: int, alphabet: string)

  /** The settings init() understands: an integer "length" and a string "chars". */
  predicate Understood(s: Settings)
  {
    NumberOrUnset(s, "length") && TextOrUnset(s, "chars")
  }

  /** init(settings): a non-array changes nothing; otherwise each of
      "length" and "chars" that is set replaces its part of the state. */
  function Configure(c: Config, s: Settings): (r: Config)
    requires Understood(s)
    ensures !s.Entries? ==> r == c
    ensures !IsSet(s, "length") ==> r.length == c.length
    ensures !IsSet(s, "chars") ==> r.alphabet == c.alphabet
    ensures IsSet(s, "length") ==> s.entries["length"] == Number(r.length)
    ensures IsSet(s, "chars") ==> s.entries["chars"] == Text(r.alphabet)
  {
    if !s.Entries? then c
    else
      Config(if IsSet(s, "length") then s.entries["length"].n else c.length,
             if IsSet(s, "chars") then s.entries["chars"].s else c.alphabet)
  }

  /** generate() on a configuration: a strong key of the configured length,
      or "" when the alphabet is empty. */
  function Output(dev: Device, gen: Generator, pool: seq<Byte>, prng: PrngState, c: Config): (r: Run<string>)
    ensures r.result.Success? <==> dev.readable && dev.openable
    ensures r.result.Success? && |c.alphabet| > 0 ==> |r.result.value| == Draws(c.length)
    ensures r.result.Success? ==> forall i :: 0 <= i < |r.result.value| ==> r.result.value[i] in c.alphabet
    ensures r.result.Success? && |c.alphabet| == 0 ==> r.result.value == ""
  {
    RandomKeyStrong(dev, gen, pool, prng, c.alphabet, c.length)
  }

  class RandomStringAlgorithm {
    /** The key generator this instance created for itself. */
    const keygen: KeyGen
    var stringLength: int

    ghost predicate Valid()
      reads this, keygen
    {
      keygen.Valid()
    }

    /** The state init() and generate() work on. */
    function Current(): Config
      reads this, keygen
    {
      Config(stringLength, keygen.keyCharacters)
    }

    /** A new instance with a key generator of its own on the shared random
        sources; the alphabet changes from base 62 only when chars is given. */
    constructor (entropy: EntropyDevice, prng: MersenneTwister, length: int := DefaultLength, chars: Option<string> := None)
      ensures Valid() && fresh(keygen)
      ensures keygen.entropy == entropy && keygen.prng == prng
      ensures Current() == Config(length, if chars.Some? then chars.value else Base62Chars)
    {
      var kg := new KeyGen(entropy, prng);
      if chars.Some? {
        kg.SetKeyCharacters(chars.value);
      }
      stringLength := length;
      keygen := kg;
    }

    method Init(s: Settings)
      requires Valid() && Understood(s)
      modifies this, keygen
      ensures Valid()
      ensures Current() == Configure(old(Current()), s)
    {
      if !s.Entries? {
        return;
      }
      if IsSet(s, "length") {
        stringLength := s.entries["length"].n;
      }
      if IsSet(s, "chars") {
        keygen.SetKeyCharacters(s.entries["chars"].s);
      }
    }

    method Generate() returns (r: Result<string>)
      requires Valid()
      modifies keygen.entropy, keygen.prng
      ensures Run(r, keygen.entropy.pool, keygen.prng.State())
           == Output(keygen.entropy.Status(), keygen.prng.gen, old(keygen.entropy.pool), old(keygen.prng.State()), Current())
    {
      r := keygen.GetRandomKeyStrong(stringLength);
    }
  }
}
