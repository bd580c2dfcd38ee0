/** The password generator: a password structure (a list of algorithm
    names) over named, configured algorithm instances; the password is the
    concatenation of what each named instance generates, in order. */
module PassGenerator {
  import opened Errors
  import opened Bits
  import opened Entropy
  import opened Prng
  import opened KeyGenerator
  import opened Settings
  import RandomString
  import DictionaryArray
  import DictionaryFile

  /** The algorithm classes a definition can name. */
  datatype Kind = RandomStringKind | DictionaryArrayKind | DictionaryFileKind

  /** An algorithm definition: its class and, when the definition has a
      second element, the settings handed to init(). */
  datatype Definition = Definition(kind: Kind, settings: Option<Settings>)

  /** The definitions, as the ordered pairs of an associative array. */
  type Definitions = seq<(string, Definition)>

  predicate DistinctNames<T>(ps: seq<(string, T)>)
  {
    forall i, j :: 0 <= i < j < |ps| ==> ps[i].0 != ps[j].0
  }

  /** The configurable state of an algorithm instance. */
  datatype Part =
    | RandomStringPart(config: RandomString.Config)
    | DictionaryArrayPart(dictionary: seq<string>)
    | DictionaryFilePart(fileConfig: DictionaryFile.FileConfig)

  /** Parts generate() can run on: a dictionary file part keeps its casing
      fields consistent. */
  predicate PartValid(p: Part)
  {
    p.DictionaryFilePart? ==> DictionaryFile.CasingConsistent(p.fileConfig)
  }

  /** The state of a newly created instance of each class. */
  function FreshPart(kind: Kind): (p: Part)
    ensures PartValid(p)
  {
    match kind
    case RandomStringKind => RandomStringPart(RandomString.Config(RandomString.DefaultLength, Base62Chars))
    case DictionaryArrayKind => DictionaryArrayPart(DictionaryArray.DefaultDictionary)
    case DictionaryFileKind =>
      DictionaryFile.EnabledBits(DictionaryFile.CasingLower);
      DictionaryFilePart(DictionaryFile.DefaultConfig)
  }

  /** Settings the definition's class understands (integers and strings
      where its init() needs them). */
  predicate Understands(d: Definition)
  {
    d.settings.Some? ==>
      match d.kind
      case RandomStringKind => RandomString.Understood(d.settings.value)
      case DictionaryArrayKind => true
      case DictionaryFileKind => DictionaryFile.Understood(d.settings.value)
  }

  datatype Made = Made(outcome: Outcome, part: Part)

  /** One definition: a fresh instance of its class, then init() with the
      settings when the definition has them. */
  function Setup(fs: DictionaryFile.FileSystem, d: Definition): (m: Made)
    requires Understands(d)
    ensures PartValid(m.part)
    ensures d.settings.None? ==> m == Made(Pass, FreshPart(d.kind))
    ensures m.outcome.Fail? ==> d.kind == DictionaryFileKind
  {
    var p := FreshPart(d.kind);
    if d.settings.None? then Made(Pass, p)
    else
      var s := d.settings.value;
      match p
      case RandomStringPart(c) => Made(Pass, RandomStringPart(RandomString.Configure(c, s)))
      case DictionaryArrayPart(words) => Made(Pass, DictionaryArrayPart(DictionaryArray.Configure(words, s)))
      case DictionaryFilePart(c) =>
        var r := DictionaryFile.Configure(fs, c, s);
        Made(r.outcome, DictionaryFilePart(r.config))
  }

  datatype Built = Built(outcome: Outcome, parts: map<string, Part>)

  /** The names a list of pairs defines. */
  function Names<T>(ps: seq<(string, T)>): set<string>
  {
    set i | 0 <= i < |ps| :: ps[i].0
  }

  /** Every definition set up, paired with its name. */
  function Setups(fs: DictionaryFile.FileSystem, defs: Definitions): (ms: seq<(string, Made)>)
    requires forall i :: 0 <= i < |defs| ==> Understands(defs[i].1)
    ensures |ms| == |defs| && Names(ms) == Names(defs)
    ensures forall i :: 0 <= i < |defs| ==> ms[i] == (defs[i].0, Setup(fs, defs[i].1))
  {
    var ms := seq(|defs|, i requires 0 <= i < |defs| => (defs[i].0, Setup(fs, defs[i].1)));
    assert forall i :: 0 <= i < |defs| ==> ms[i].0 == defs[i].0;
    ms
  }

  /** Instances put in place in order, stopping after the first whose
      init() threw; that one is already in place. */
  function Assemble(ms: seq<(string, Made)>): (b: Built)
    requires forall i :: 0 <= i < |ms| ==> PartValid(ms[i].1.part)
    ensures forall n :: n in b.parts ==> PartValid(b.parts[n])
    ensures b.outcome.Pass? <==> forall i :: 0 <= i < |ms| ==> ms[i].1.outcome.Pass?
    ensures b.outcome.Pass? ==> b.parts.Keys == Names(ms)
    ensures b.parts.Keys <= Names(ms)
  {
    if ms == [] then Built(Pass, map[])
    else
      var front := ms[..|ms| - 1];
      var b := Assemble(front);
      assert forall i :: 0 <= i < |front| ==> front[i] == ms[i];
      assert Names(ms) == Names(front) + {ms[|ms| - 1].0};
      if b.outcome.Fail? then b
      else
        var (name, m) := ms[|ms| - 1];
        Built(m.outcome, b.parts[name := m.part])
  }

  /** initAlgorithms(): the instances of all definitions, in order. */
  function Build(fs: DictionaryFile.FileSystem, defs: Definitions): (b: Built)
    requires forall i :: 0 <= i < |defs| ==> Understands(defs[i].1)
    ensures forall n :: n in b.parts ==> PartValid(b.parts[n])
    ensures b.outcome.Pass? <==> forall i :: 0 <= i < |defs| ==> Setup(fs, defs[i].1).outcome.Pass?
    ensures b.outcome.Pass? ==> b.parts.Keys == Names(defs)
    ensures b.parts.Keys <= Names(defs)
  {
    var ms := Setups(fs, defs);
    assert forall i :: 0 <= i < |ms| ==> ms[i].1 == Setup(fs, defs[i].1);
    Assemble(ms)
  }

  /** A clean assembly is a clean assembly of all entries but the last,
      with the last put in place. */
  lemma AssembleLast(ms: seq<(string, Made)>)
    requires forall i :: 0 <= i < |ms| ==> PartValid(ms[i].1.part)
    requires ms != [] && Assemble(ms).outcome.Pass?
    ensures Assemble(ms[..|ms| - 1]).outcome.Pass?
    ensures Assemble(ms).parts == Assemble(ms[..|ms| - 1]).parts[ms[|ms| - 1].0 := ms[|ms| - 1].1.part]
  {
  }

  /** With distinct names and no exception, each name holds the instance its
      own entry made. */
  lemma {:induction false} AssembleParts(ms: seq<(string, Made)>)
    requires forall i :: 0 <= i < |ms| ==> PartValid(ms[i].1.part)
    requires DistinctNames(ms)
    ensures var b := Assemble(ms);
      b.outcome.Pass? ==> forall i :: 0 <= i < |ms| ==> b.parts[ms[i].0] == ms[i].1.part
  {
    if ms != [] && Assemble(ms).outcome.Pass? {
      var n := |ms| - 1;
      var front := ms[..n];
      assert forall i :: 0 <= i < n ==> front[i] == ms[i];
      AssembleParts(front);
      AssembleLast(ms);
      var b := Assemble(front).parts;
      forall i | 0 <= i < |ms|
        ensures Assemble(ms).parts[ms[i].0] == ms[i].1.part
      {
        if i < n {
          assert ms[i].0 != ms[n].0 && b[front[i].0] == ms[i].1.part;
        }
      }
    }
  }

  /** With distinct names and no exception, each name holds the instance its
      own definition sets up: a fresh one, configured by init() exactly when
      the definition has settings. */
  lemma BuildParts(fs: DictionaryFile.FileSystem, defs: Definitions)
    requires forall i :: 0 <= i < |defs| ==> Understands(defs[i].1)
    requires DistinctNames(defs)
    ensures var b := Build(fs, defs);
      b.outcome.Pass? ==> forall i :: 0 <= i < |defs| ==> b.parts[defs[i].0] == Setup(fs, defs[i].1).part
  {
    var ms := Setups(fs, defs);
    AssembleParts(ms);
  }

  /** Putting one more entry in place after a clean prefix. */
  lemma AssembleNext(ms: seq<(string, Made)>, i: nat)
    requires forall k :: 0 <= k < |ms| ==> PartValid(ms[k].1.part)
    requires i < |ms| && Assemble(ms[..i]).outcome.Pass?
    ensures Assemble(ms[..i + 1]) == Built(ms[i].1.outcome, Assemble(ms[..i]).parts[ms[i].0 := ms[i].1.part])
  {
    assert ms[..i + 1][..i] == ms[..i];
  }

  /** After an entry whose init() threw, later entries change nothing. */
  lemma {:induction false} AssembleStopsAt(ms: seq<(string, Made)>, i: nat)
    requires forall k :: 0 <= k < |ms| ==> PartValid(ms[k].1.part)
    requires i < |ms| && Assemble(ms[..i + 1]).outcome.Fail?
    ensures Assemble(ms) == Assemble(ms[..i + 1])
    decreases |ms|
  {
    if |ms| > i + 1 {
      var front := ms[..|ms| - 1];
      assert front[..i + 1] == ms[..i + 1];
      AssembleStopsAt(front, i);
    } else {
      assert ms[..i + 1] == ms;
    }
  }

  /** generate() of one instance. */
  function Produce(dev: Device, fs: DictionaryFile.FileSystem, gen: Generator, pool: seq<Byte>, prng: PrngState, p: Part): Run<string>
    requires PartValid(p)
  {
    match p
    case RandomStringPart(c) => RandomString.Output(dev, gen, pool, prng, c)
    case DictionaryArrayPart(words) => DictionaryArray.Pick(dev, pool, prng, words)
    case DictionaryFilePart(c) => DictionaryFile.Choose(dev, fs, pool, prng, c)
  }

  /** How an instance generates from its state and the random sources as
      it finds them. */
  type Producer = (Part, seq<Byte>, PrngState) --> Run<string>

  /** A producer that every valid part can run. */
  ghost predicate Runs(produce: Producer)
  {
    forall p, pool, prng :: PartValid(p) ==> produce.requires(p, pool, prng)
  }

  /** generate() of the instances on a device, a file system and a PRNG
      algorithm. */
  function Producers(dev: Device, fs: DictionaryFile.FileSystem, gen: Generator): (produce: Producer)
    ensures Runs(produce)
    ensures forall p, pool, prng :: PartValid(p) ==> produce(p, pool, prng) == Produce(dev, fs, gen, pool, prng, p)
  {
    (p: Part, pool: seq<Byte>, prng: PrngState) requires PartValid(p) => Produce(dev, fs, gen, pool, prng, p)
  }

  /** A run with `prefix` put in front of its value. */
  function Prepend(prefix: string, r: Run<string>): Run<string>
  {
    if r.result.Success? then Run(Success(prefix + r.result.value), r.pool, r.prng) else r
  }

  /** generate(): each name of the structure in turn, refusing a name with
      no instance, each instance drawing on the random sources as the
      previous ones left them. */
  function Compose(produce: Producer, pool: seq<Byte>, prng: PrngState, names: seq<string>, parts: map<string, Part>): (r: Run<string>)
    requires Runs(produce) && forall n :: n in parts ==> PartValid(parts[n])
    ensures names == [] ==> r == Run(Success(""), pool, prng)
    ensures r.result.Success? ==> forall i :: 0 <= i < |names| ==> names[i] in parts
    decreases |names|
  {
    if names == [] then Run(Success(""), pool, prng)
    else if names[0] !in parts then Run(Failure(UndefinedAlgorithm(names[0])), pool, prng)
    else
      var first := produce(parts[names[0]], pool, prng);
      if first.result.Failure? then first
      else
        var r := Prepend(first.result.value, Compose(produce, first.pool, first.prng, names[1..], parts));
        assert forall i :: 1 <= i < |names| ==> names[i] == names[1..][i - 1];
        r
  }

  /** A structure generates as its first half followed by its second half,
      the second starting from the random sources as the first left them. */
  lemma {:induction false} ComposeAppend(produce: Producer, pool: seq<Byte>, prng: PrngState,
                                         a: seq<string>, b: seq<string>, parts: map<string, Part>)
    requires Runs(produce) && forall n :: n in parts ==> PartValid(parts[n])
    ensures var ra := Compose(produce, pool, prng, a, parts);
      Compose(produce, pool, prng, a + b, parts)
      == if ra.result.Failure? then ra else Prepend(ra.result.value, Compose(produce, ra.pool, ra.prng, b, parts))
    decreases |a|
  {
    if a == [] {
      assert a + b == b;
      var rb := Compose(produce, pool, prng, b, parts);
      if rb.result.Success? {
        assert "" + rb.result.value == rb.result.value;
      }
    } else {
      assert (a + b)[0] == a[0] && (a + b)[1..] == a[1..] + b;
      if a[0] in parts {
        var first := produce(parts[a[0]], pool, prng);
        if first.result.Success? {
          ComposeAppend(produce, first.pool, first.prng, a[1..], b, parts);
          var ra := Compose(produce, first.pool, first.prng, a[1..], parts);
          if ra.result.Success? {
            var rb := Compose(produce, ra.pool, ra.prng, b, parts);
            if rb.result.Success? {
              assert first.result.value + (ra.result.value + rb.result.value)
                  == (first.result.value + ra.result.value) + rb.result.value;
            }
          }
        }
      }
    }
  }

  /** A name with no instance ends generation there: nothing after it runs,
      and when every part before it succeeded the error names it. */
  lemma ComposeStopsAtUndefined(produce: Producer, pool: seq<Byte>, prng: PrngState,
                                names: seq<string>, parts: map<string, Part>, j: nat)
    requires Runs(produce) && forall n :: n in parts ==> PartValid(parts[n])
    requires j < |names| && names[j] !in parts
    ensures var r := Compose(produce, pool, prng, names, parts);
      var before := Compose(produce, pool, prng, names[..j], parts);
      && r.result.Failure?
      && (before.result.Success? ==> r == Run(Failure(UndefinedAlgorithm(names[j])), before.pool, before.prng))
      && (before.result.Failure? ==> r == before)
  {
    ComposeAppend(produce, pool, prng, names[..j], names[j..], parts);
    assert names[..j] + names[j..] == names;
    assert names[j..][0] == names[j];
  }

  /** A name used twice runs the same instance twice: the second run starts
      from the random sources as the first left them, and the password is
      the two outputs one after the other. */
  lemma ComposeRepeated(produce: Producer, pool: seq<Byte>, prng: PrngState, name: string, parts: map<string, Part>)
    requires Runs(produce) && forall n :: n in parts ==> PartValid(parts[n])
    requires name in parts
    ensures var first := produce(parts[name], pool, prng);
      var second := produce(parts[name], first.pool, first.prng);
      Compose(produce, pool, prng, [name, name], parts)
      == if first.result.Failure? then first
         else if second.result.Failure? then second
         else Run(Success(first.result.value + second.result.value), second.pool, second.prng)
  {
    ComposeAppend(produce, pool, prng, [name], [name], parts);
    assert [name] + [name] == [name, name];
    ComposeOne(produce, pool, prng, name, parts);
    var first := produce(parts[name], pool, prng);
    ComposeOne(produce, first.pool, first.prng, name, parts);
  }

  /** A one-name structure: the named instance's output, or the error for
      a name with no instance. */
  lemma ComposeOne(produce: Producer, pool: seq<Byte>, prng: PrngState, name: string, parts: map<string, Part>)
    requires Runs(produce) && forall n :: n in parts ==> PartValid(parts[n])
    ensures Compose(produce, pool, prng, [name], parts)
         == if name !in parts then Run(Failure(UndefinedAlgorithm(name)), pool, prng)
            else produce(parts[name], pool, prng)
  {
    if name in parts {
      var first := produce(parts[name], pool, prng);
      if first.result.Success? {
        assert [name][1..] == [];
        assert first.result.value + "" == first.result.value;
      }
    }
  }

  /** Once a prefix of the structure fails, the whole structure fails the
      same way: nothing after it runs. */
  lemma ComposeStops(produce: Producer, pool: seq<Byte>, prng: PrngState, names: seq<string>, parts: map<string, Part>, j: nat)
    requires Runs(produce) && forall n :: n in parts ==> PartValid(parts[n])
    requires j <= |names| && Compose(produce, pool, prng, names[..j], parts).result.Failure?
    ensures Compose(produce, pool, prng, names, parts) == Compose(produce, pool, prng, names[..j], parts)
  {
    ComposeAppend(produce, pool, prng, names[..j], names[j..], parts);
    assert names[..j] + names[j..] == names;
  }

  /** One more name of the structure: after a clean prefix, the name's run
      either ends the structure with its error or extends the password. */
  lemma ComposeNext(produce: Producer, pool: seq<Byte>, prng: PrngState, names: seq<string>, parts: map<string, Part>,
                    i: nat, password: string, mid: Run<string>, next: Run<string>)
    requires Runs(produce) && forall n :: n in parts ==> PartValid(parts[n])
    requires i < |names|
    requires Compose(produce, pool, prng, names[..i], parts) == Run(Success(password), mid.pool, mid.prng)
    requires next == Compose(produce, mid.pool, mid.prng, [names[i]], parts)
    ensures next.result.Failure? ==> Compose(produce, pool, prng, names, parts) == next
    ensures next.result.Success? ==>
      Compose(produce, pool, prng, names[..i + 1], parts) == Run(Success(password + next.result.value), next.pool, next.prng)
  {
    ComposeAppend(produce, pool, prng, names[..i], [names[i]], parts);
    assert names[..i] + [names[i]] == names[..i + 1];
    if next.result.Failure? {
      ComposeStops(produce, pool, prng, names, parts, i + 1);
    }
  }

  /** The default structure: one 8-character key over the base-62 alphabet. */
  const DefaultStructure: seq<string> := ["RANDSTR8"]
  const DefaultDefinitions: Definitions := [("RANDSTR8", Definition(RandomStringKind, None))]

  /** On a working random device the default configuration generates eight
      base-62 characters. */
  lemma DefaultPassword(dev: Device, fs: DictionaryFile.FileSystem, gen: Generator, pool: seq<Byte>, prng: PrngState)
    requires dev.readable && dev.openable
    ensures var b := Build(fs, DefaultDefinitions);
      var r := Compose(Producers(dev, fs, gen), pool, prng, DefaultStructure, b.parts);
      && b.outcome.Pass?
      && r.result.Success? && |r.result.value| == 8
      && forall i :: 0 <= i < 8 ==> r.result.value[i] in Base62Chars
  {
    var b := Build(fs, DefaultDefinitions);
    assert DefaultDefinitions[..0] == [];
    assert b.parts == map["RANDSTR8" := FreshPart(RandomStringKind)];
    ComposeOne(Producers(dev, fs, gen), pool, prng, "RANDSTR8", b.parts);
  }

  // ---------------------------------------------------------------------------

  /** An algorithm instance the generator holds, of one of the three classes. */
  datatype Instance =
    | RandomStringInstance(rs: RandomString.RandomStringAlgorithm)
    | DictionaryArrayInstance(da: DictionaryArray.DictionaryArrayAlgorithm)
    | DictionaryFileInstance(df: DictionaryFile.DictionaryFileAlgorithm)
  {
    function Kind(): Kind
    {
      match this
      case RandomStringInstance(_) => RandomStringKind
      case DictionaryArrayInstance(_) => DictionaryArrayKind
      case DictionaryFileInstance(_) => DictionaryFileKind
    }

    /** The objects holding the instance's state. */
    ghost function Objects(): set<object>
    {
      match this
      case RandomStringInstance(a) => {a, a.keygen}
      case DictionaryArrayInstance(a) => {a, a.keygen}
      case DictionaryFileInstance(a) => {a, a.keygen}
    }

    /** The instance's configurable state. */
    ghost function State(): Part
      reads Objects()
    {
      match this
      case RandomStringInstance(a) => RandomStringPart(a.Current())
      case DictionaryArrayInstance(a) => DictionaryArrayPart(a.dictionary)
      case DictionaryFileInstance(a) => DictionaryFilePart(a.Current())
    }

    ghost predicate Valid()
      reads Objects()
    {
      && PartValid(State())
      && match this
         case RandomStringInstance(a) => a.Valid()
         case DictionaryArrayInstance(a) => a.Valid()
         case DictionaryFileInstance(a) => a.Valid()
    }

    /** The instance draws on the given random sources and reads the given
        files. */
    ghost predicate Shares(entropy: EntropyDevice, prng: MersenneTwister, fs: DictionaryFile.FileSystem)
    {
      match this
      case RandomStringInstance(a) => a.keygen.entropy == entropy && a.keygen.prng == prng
      case DictionaryArrayInstance(a) => a.keygen.entropy == entropy && a.keygen.prng == prng
      case DictionaryFileInstance(a) => a.keygen.entropy == entropy && a.keygen.prng == prng && a.fs == fs
    }
  }

  /** Every instance's objects lie in `repr`, and every instance is valid. */
  ghost predicate Tracked(instances: map<string, Instance>, repr: set<object>)
    reads repr
  {
    forall n :: n in instances ==> instances[n].Objects() <= repr && instances[n].Valid()
  }

  /** The state of each named instance. */
  ghost function States(instances: map<string, Instance>, repr: set<object>): (parts: map<string, Part>)
    requires Tracked(instances, repr)
    reads repr
    ensures parts.Keys == instances.Keys
    ensures forall n :: n in parts ==> PartValid(parts[n]) && parts[n] == instances[n].State()
  {
    map n | n in instances :: instances[n].State()
  }

  /** Putting an instance in place under a name. */
  lemma TrackedPut(instances: map<string, Instance>, repr: set<object>, name: string, inst: Instance)
    requires Tracked(instances, repr) && inst.Valid()
    ensures Tracked(instances[name := inst], repr + inst.Objects())
    ensures States(instances[name := inst], repr + inst.Objects()) == States(instances, repr)[name := inst.State()]
  {
  }

  class PassGen {
    /** The random device and PRNG every instance's key generator draws on. */
    const entropy: EntropyDevice
    const prng: MersenneTwister
    /** The files dictionary instances read. */
    const fs: DictionaryFile.FileSystem
    var algorithms: map<string, Instance>
    var algorithmParts: seq<string>
    var algorithmDefinitions: Definitions
    /** The objects of the instances held. */
    ghost var Repr: set<object>

    ghost predicate Valid()
      reads this, Repr
    {
      && this !in Repr && entropy !in Repr && prng !in Repr
      && Tracked(algorithms, Repr)
      && forall n :: n in algorithms ==> algorithms[n].Shares(entropy, prng, fs)
    }

    /** The state of each named instance. */
    ghost function Parts(): (parts: map<string, Part>)
      requires Valid()
      reads this, Repr
      ensures parts.Keys == algorithms.Keys
      ensures forall n :: n in parts ==> PartValid(parts[n])
    {
      States(algorithms, Repr)
    }

    /** The generator with the default configuration: the structure
        ["RANDSTR8"] over one default random-string instance. */
    constructor (entropy: EntropyDevice, prng: MersenneTwister, fs: DictionaryFile.FileSystem)
      ensures Valid()
      ensures this.entropy == entropy && this.prng == prng && this.fs == fs
      ensures algorithmDefinitions == DefaultDefinitions && algorithmParts == DefaultStructure
      ensures Parts() == Build(fs, DefaultDefinitions).parts
    {
      this.entropy, this.prng, this.fs := entropy, prng, fs;
      algorithms, algorithmParts, algorithmDefinitions := map[], [], [];
      Repr := {};
      new;
      var outcome := SetAlgorithmConfig(DefaultDefinitions);
      SetPasswordStructure(DefaultStructure);
    }

    /** setAlgorithmConfig(): keep the definitions and build their instances;
        an exception from an instance's init() is the outcome. */
    method SetAlgorithmConfig(defs: Definitions) returns (outcome: Outcome)
      requires Valid()
      requires forall i :: 0 <= i < |defs| ==> Understands(defs[i].1)
      modifies this
      ensures Valid()
      ensures algorithmDefinitions == defs && algorithmParts == old(algorithmParts)
      ensures Built(outcome, Parts()) == Build(fs, defs)
    {
      algorithmDefinitions := defs;
      outcome := InitAlgorithms();
    }

    /** setPasswordStructure(): the names to generate from, in order;
        nothing is checked until generate(). */
    method SetPasswordStructure(names: seq<string>)
      requires Valid()
      modifies this
      ensures Valid() && algorithmParts == names
      ensures algorithms == old(algorithms) && algorithmDefinitions == old(algorithmDefinitions) && Repr == old(Repr)
      ensures Parts() == old(Parts())
    {
      algorithmParts := names;
    }

    /** A new instance of a class, as the framework creates it, on the shared
        random sources. */
    method NewInstance(kind: Kind) returns (inst: Instance)
      ensures fresh(inst.Objects())
      ensures inst.Valid() && inst.Shares(entropy, prng, fs)
      ensures inst.Kind() == kind && inst.State() == FreshPart(kind)
    {
      match kind
      case RandomStringKind =>
        var a := new RandomString.RandomStringAlgorithm(entropy, prng);
        inst := RandomStringInstance(a);
      case DictionaryArrayKind =>
        var a := new DictionaryArray.DictionaryArrayAlgorithm(entropy, prng);
        inst := DictionaryArrayInstance(a);
      case DictionaryFileKind =>
        var a := new DictionaryFile.DictionaryFileAlgorithm(entropy, prng, fs);
        inst := DictionaryFileInstance(a);
    }

    /** init(settings) on a new instance: the instance ends as the definition
        sets it up. */
    method InitInstance(inst: Instance, d: Definition) returns (outcome: Outcome)
      requires inst.Valid() && inst.Shares(entropy, prng, fs)
      requires inst.Kind() == d.kind && inst.State() == FreshPart(d.kind)
      requires Understands(d) && d.settings.Some?
      modifies inst.Objects()
      ensures inst.Valid()
      ensures Made(outcome, inst.State()) == Setup(fs, d)
    {
      match inst
      case RandomStringInstance(a) =>
        a.Init(d.settings.value);
        outcome := Pass;
      case DictionaryArrayInstance(a) =>
        a.Init(d.settings.value);
        outcome := Pass;
      case DictionaryFileInstance(a) =>
        outcome := a.Init(d.settings.value);
    }

    /** A fresh instance of the definition's class, then init() with the
        definition's settings if it has any. */
    method MakeInstance(d: Definition) returns (inst: Instance, outcome: Outcome)
      requires Understands(d)
      ensures fresh(inst.Objects())
      ensures inst.Valid() && inst.Shares(entropy, prng, fs)
      ensures Made(outcome, inst.State()) == Setup(fs, d)
    {
      inst := NewInstance(d.kind);
      outcome := Pass;
      if d.settings.Some? {
        outcome := InitInstance(inst, d);
      }
    }

    /** An instance put in place under a name, replacing any instance the
        name had. */
    method PutInstance(name: string, inst: Instance)
      requires Valid() && inst.Valid() && inst.Shares(entropy, prng, fs)
      requires this !in inst.Objects() && entropy !in inst.Objects() && prng !in inst.Objects()
      modifies this
      ensures Valid() && name in algorithms
      ensures algorithmDefinitions == old(algorithmDefinitions) && algorithmParts == old(algorithmParts)
      ensures Parts() == old(Parts())[name := inst.State()]
    {
      ghost var after := States(algorithms, Repr)[name := inst.State()];
      TrackedPut(algorithms, Repr, name, inst);
      algorithms := algorithms[name := inst];
      Repr := Repr + inst.Objects();
      assert States(algorithms, Repr) == after;
    }

    /** One definition of initAlgorithms(): a fresh instance under its name,
        then init() with the settings if there are any. */
    method AddAlgorithm(name: string, d: Definition) returns (outcome: Outcome)
      requires Valid() && Understands(d)
      modifies this
      ensures Valid()
      ensures algorithmDefinitions == old(algorithmDefinitions) && algorithmParts == old(algorithmParts)
      ensures name in algorithms && Made(outcome, Parts()[name]) == Setup(fs, d)
      ensures Parts() == old(Parts())[name := Setup(fs, d).part]
    {
      // init() touches only the new instance, so running it before the
      // instance is put in place gives the same state.
      var inst;
      inst, outcome := MakeInstance(d);
      PutInstance(name, inst);
    }

    /** initAlgorithms(): a fresh instance for each definition in order, put
        in place under its name before its init() runs; the first exception
        ends the loop with the instances made so far in place. */
    method InitAlgorithms() returns (outcome: Outcome)
      requires Valid()
      requires forall i :: 0 <= i < |algorithmDefinitions| ==> Understands(algorithmDefinitions[i].1)
      modifies this
      ensures Valid()
      ensures algorithmDefinitions == old(algorithmDefinitions) && algorithmParts == old(algorithmParts)
      ensures Built(outcome, Parts()) == Build(fs, algorithmDefinitions)
    {
      algorithms := map[];
      Repr := {};
      var defs := algorithmDefinitions;
      ghost var ms := Setups(fs, defs);
      var i := 0;
      while i < |defs|
        invariant 0 <= i <= |defs|
        invariant Valid()
        invariant algorithmDefinitions == defs && algorithmParts == old(algorithmParts)
        invariant Assemble(ms[..i]) == Built(Pass, Parts())
      {
        outcome := AddAlgorithm(defs[i].0, defs[i].1);
        AssembleNext(ms, i);
        if outcome.Fail? {
          AssembleStopsAt(ms, i);
          return;
        }
        i := i + 1;
      }
      assert ms[..i] == ms;
      outcome := Pass;
    }

    /** generate() of one instance, on the shared random sources. */
    method GenerateWith(inst: Instance) returns (r: Result<string>)
      requires inst.Valid() && inst.Shares(entropy, prng, fs)
      modifies entropy, prng
      ensures Run(r, entropy.pool, prng.State())
           == Produce(entropy.Status(), fs, prng.gen, old(entropy.pool), old(prng.State()), inst.State())
    {
      match inst
      case RandomStringInstance(a) => r := a.Generate();
      case DictionaryArrayInstance(a) => r := a.Generate();
      case DictionaryFileInstance(a) => r := a.Generate();
    }

    /** One name of generate(): refused when it has no instance, otherwise
        what that instance generates. */
    method GeneratePart(name: string) returns (r: Result<string>)
      requires Valid()
      modifies entropy, prng
      ensures Valid() && Parts() == old(Parts())
      ensures name !in algorithms ==> r == Failure(UndefinedAlgorithm(name)) && unchanged(entropy, prng)
      ensures name in algorithms ==>
        Run(r, entropy.pool, prng.State())
        == Produce(entropy.Status(), fs, prng.gen, old(entropy.pool), old(prng.State()), Parts()[name])
    {
      if name !in algorithms {
        return Failure(UndefinedAlgorithm(name));
      }
      r := GenerateWith(algorithms[name]);
    }

    /** generate(): the parts of the password structure concatenated; a name
        with no instance is an error, and so is a failing instance. */
    method Generate() returns (r: Result<string>)
      requires Valid()
      modifies entropy, prng
      ensures Valid() && Parts() == old(Parts())
      ensures Run(r, entropy.pool, prng.State())
           == Compose(Producers(entropy.Status(), fs, prng.gen), old(entropy.pool), old(prng.State()), algorithmParts, Parts())
    {
      ghost var parts, pool, state := Parts(), entropy.pool, prng.State();
      ghost var produce := Producers(entropy.Status(), fs, prng.gen);
      var names := algorithmParts;
      var password := "";
      var i := 0;
      while i < |names|
        invariant 0 <= i <= |names|
        invariant Valid() && Parts() == parts
        invariant Compose(produce, pool, state, names[..i], parts)
               == Run(Success(password), entropy.pool, prng.State())
      {
        ghost var mid := Run(Success(password), entropy.pool, prng.State());
        var piece := GeneratePart(names[i]);
        ComposeOne(produce, mid.pool, mid.prng, names[i], parts);
        ComposeNext(produce, pool, state, names, parts, i, password, mid, Run(piece, entropy.pool, prng.State()));
        if piece.Failure? {
          return Failure(piece.error);
        }
        password := password + piece.value;
        i := i + 1;
      }
      assert names[..i] == names;
      r := Success(password);
    }
  }
}
