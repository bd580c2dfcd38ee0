/** The password part picked from a dictionary file of one word per line,
    with a casing chosen at random among the enabled casing options. */
module DictionaryFile {
  import opened Errors
  import opened Bits
  import opened Entropy
  import opened Prng
  import opened KeyGenerator
  import opened Settings

  const CasingLower: nat := 1
  const CasingUpper: nat := 2
  const CasingFirst: nat := 4
  const CasingAll: nat := 7

  // ---------------------------------------------------------------------------
  // Files and text

  /** A file as the algorithm sees it: whether it passes is_readable, whether
      fopen succeeds, and the lines fgets returns (newlines included). */
  datatype File = File(readable: bool, openable: bool, lines: seq<string>)

  /** Paths that are not in the map do not exist, so are not readable. */
  type FileSystem = map<string, File>

  predicate Readable(fs: FileSystem, path: string)
  {
    path in fs && fs[path].readable
  }

  /** The characters PHP's trim() strips: space, tab, newline, carriage
      return, NUL and vertical tab. */
  predicate IsBlank(c: char)
  {
    c == ' ' || c == '\t' || c == '\n' || c == '\r' || c == '\0' || c as int == 11
  }

  function TrimLeft(s: string): (r: string)
    ensures |r| <= |s| && r == s[|s| - |r|..]
    ensures r == [] || !IsBlank(r[0])
    ensures forall i :: 0 <= i < |s| - |r| ==> IsBlank(s[i])
  {
    if |s| > 0 && IsBlank(s[0]) then TrimLeft(s[1..]) else s
  }

  function TrimRight(s: string): (r: string)
    ensures |r| <= |s| && r == s[..|r|]
    ensures r == [] || !IsBlank(r[|r| - 1])
    ensures forall i :: |r| <= i < |s| ==> IsBlank(s[i])
  {
    if |s| > 0 && IsBlank(s[|s| - 1]) then TrimRight(s[..|s| - 1]) else s
  }

  /** trim(s): s without its leading and trailing blanks. */
  function Trim(s: string): (r: string)
  {
    TrimRight(TrimLeft(s))
  }

  /** A line trims to "" exactly when it is all blanks; otherwise trim()
      leaves a word that starts and ends with a non-blank. */
  lemma TrimEmpty(s: string)
    ensures Trim(s) == [] <==> forall i :: 0 <= i < |s| ==> IsBlank(s[i])
    ensures Trim(s) != [] ==> !IsBlank(Trim(s)[0]) && !IsBlank(Trim(s)[|Trim(s)| - 1])
  {
    var l := TrimLeft(s);
    if Trim(s) == [] {
      assert |l| == 0;
    } else {
      assert Trim(s) == l[..|Trim(s)|];
      assert l[0] == Trim(s)[0];
    }
  }

  /** strtolower / strtoupper on one character, ASCII letters only. */
  function LowerChar(c: char): char
  {
    if 'A' <= c <= 'Z' then (c as int + 32) as char else c
  }

  function UpperChar(c: char): char
  {
    if 'a' <= c <= 'z' then (c as int - 32) as char else c
  }

  function ToLower(s: string): (r: string)
    ensures |r| == |s|
    ensures forall i :: 0 <= i < |s| ==> r[i] == LowerChar(s[i]) && !('A' <= r[i] <= 'Z')
  {
    seq(|s|, i requires 0 <= i < |s| => LowerChar(s[i]))
  }

  function ToUpper(s: string): (r: string)
    ensures |r| == |s|
    ensures forall i :: 0 <= i < |s| ==> r[i] == UpperChar(s[i]) && !('a' <= r[i] <= 'z')
  {
    seq(|s|, i requires 0 <= i < |s| => UpperChar(s[i]))
  }

  /** ucfirst: the first character upper-cased, the rest left as it is. */
  function UcFirst(s: string): (r: string)
    ensures |r| == |s|
    ensures |s| > 0 ==> r[0] == UpperChar(s[0]) && r[1..] == s[1..]
  {
    if |s| == 0 then s else [UpperChar(s[0])] + s[1..]
  }

  /** The switch on the selected casing method; any other value leaves the
      word as it is (PHP raises a notice there). */
  function ApplyCasing(casingMethod: nat, word: string): string
  {
    if casingMethod == CasingLower then ToLower(word)
    else if casingMethod == CasingUpper then ToUpper(word)
    else if casingMethod == CasingFirst then UcFirst(word)
    else word
  }

  // ---------------------------------------------------------------------------
  // countDictionaryEntries and findDictionaryEntry

  /** Counting the lines, failing at the first one that trims to "". */
  function CountLines(lines: seq<string>): (r: Result<nat>)
    ensures r.Success? <==> NoEmptyLine(lines)
    ensures r.Success? ==> r.value == |lines|
    ensures r.Failure? ==> r.error == DictionaryHasEmptyLines
  {
    if lines == [] then Success(0)
    else if Trim(lines[0]) == [] then Failure(DictionaryHasEmptyLines)
    else
      var rest := CountLines(lines[1..]);
      NoEmptyLineSplits(lines);
      if rest.Failure? then rest else Success(1 + rest.value)
  }

  predicate NoEmptyLine(lines: seq<string>)
  {
    forall i :: 0 <= i < |lines| ==> Trim(lines[i]) != []
  }

  lemma NoEmptyLineSplits(lines: seq<string>)
    requires lines != []
    ensures NoEmptyLine(lines) <==> Trim(lines[0]) != [] && NoEmptyLine(lines[1..])
  {
    assert forall i :: 1 <= i < |lines| ==> lines[i] == lines[1..][i - 1];
  }

  lemma CountLinesAccepts(lines: seq<string>)
    requires forall i :: 0 <= i < |lines| ==> Trim(lines[i]) != []
    ensures CountLines(lines) == Success(|lines|)
  {
  }

  lemma CountLinesRejects(lines: seq<string>, k: nat)
    requires k < |lines| && Trim(lines[k]) == []
    ensures CountLines(lines) == Failure(DictionaryHasEmptyLines)
  {
  }

  /** countDictionaryEntries(path). */
  function CountEntries(fs: FileSystem, path: string): (r: Result<nat>)
    ensures !Readable(fs, path) ==> r == Failure(DictionaryNotReadable)
    ensures Readable(fs, path) && !fs[path].openable ==> r == Failure(DictionaryOpenFailed)
    ensures Readable(fs, path) && fs[path].openable ==> r == CountLines(fs[path].lines)
  {
    if !Readable(fs, path) then Failure(DictionaryNotReadable)
    else if !fs[path].openable then Failure(DictionaryOpenFailed)
    else CountLines(fs[path].lines)
  }

  /** The scan for line `index`, counting lines from 0. A negative index
      never matches. */
  function LineAt(lines: seq<string>, index: int): (r: Result<string>)
    ensures r.Success? <==> 0 <= index < |lines|
    ensures r.Success? ==> r.value == Trim(lines[index])
    ensures r.Failure? ==> r.error == EntryNotFound
  {
    if lines == [] then Failure(EntryNotFound)
    else if index == 0 then Success(Trim(lines[0]))
    else
      var r := LineAt(lines[1..], index - 1);
      assert 0 < index < |lines| ==> lines[1..][index - 1] == lines[index];
      r
  }

  /** findDictionaryEntry(path, index). */
  function FindEntry(fs: FileSystem, path: string, index: int): (r: Result<string>)
    ensures !Readable(fs, path) ==> r == Failure(DictionaryNotReadable)
    ensures Readable(fs, path) && !fs[path].openable ==> r == Failure(DictionaryOpenFailed)
    ensures Readable(fs, path) && fs[path].openable ==> r == LineAt(fs[path].lines, index)
  {
    if !Readable(fs, path) then Failure(DictionaryNotReadable)
    else if !fs[path].openable then Failure(DictionaryOpenFailed)
    else LineAt(fs[path].lines, index)
  }

  method CountDictionaryEntries(fs: FileSystem, path: string) returns (r: Result<nat>)
    ensures r == CountEntries(fs, path)
  {
    if !Readable(fs, path) {
      return Failure(DictionaryNotReadable);
    }
    if !fs[path].openable {
      return Failure(DictionaryOpenFailed);
    }
    r := ScanLines(fs[path].lines);
  }

  /** The fgets loop of countDictionaryEntries. */
  method ScanLines(lines: seq<string>) returns (r: Result<nat>)
    ensures r == CountLines(lines)
  {
    var wordcount := 0;
    while wordcount < |lines|
      invariant wordcount <= |lines|
      invariant forall i :: 0 <= i < wordcount ==> Trim(lines[i]) != []
    {
      var word := Trim(lines[wordcount]);
      if word == [] {
        CountLinesRejects(lines, wordcount);
        return Failure(DictionaryHasEmptyLines);
      }
      wordcount := wordcount + 1;
    }
    CountLinesAccepts(lines);
    r := Success(wordcount);
  }

  method FindDictionaryEntry(fs: FileSystem, path: string, index: int) returns (r: Result<string>)
    ensures r == FindEntry(fs, path, index)
  {
    if !Readable(fs, path) {
      return Failure(DictionaryNotReadable);
    }
    if !fs[path].openable {
      return Failure(DictionaryOpenFailed);
    }
    var lines := fs[path].lines;
    var wordcount := 0;
    while wordcount < |lines|
      invariant wordcount <= |lines|
      invariant !(0 <= index < wordcount)
    {
      if index == wordcount {
        return Success(Trim(lines[wordcount]));
      }
      wordcount := wordcount + 1;
    }
    r := Failure(EntryNotFound);
  }

  // ---------------------------------------------------------------------------
  // Casing options

  /** The casing options in the order the loops scan them: from
      (CasingAll + 1) / 2 = 4, halving down to 1. */
  const CasingScan: seq<nat> := [CasingFirst, CasingUpper, CasingLower]

  /** The options among ms that `x & option` finds set, in the order of ms. */
  function EnabledAmong(x: nat, ms: seq<nat>): seq<nat>
  {
    if ms == [] then [] else (if BitAnd(ms[0], x) != 0 then [ms[0]] else []) + EnabledAmong(x, ms[1..])
  }

  /** The casing options the bitmask x enables, highest first. */
  function Enabled(x: nat): seq<nat>
  {
    EnabledAmong(x, CasingScan)
  }

  /** Option m is enabled exactly when it is one of the three casings and
      its bit is set in x; with x in 1..7 between one and three are, and a
      single enabled option is x itself. */
  lemma EnabledOptions(x: nat)
    requires 1 <= x <= CasingAll
    ensures forall m :: m in Enabled(x) <==> m in CasingScan && (x / m) % 2 == 1
    ensures 1 <= |Enabled(x)| <= 3
    ensures |Enabled(x)| == 1 ==> Enabled(x) == [x]
  {
    EnabledBits(x);
    assert x == 1 || x == 2 || x == 3 || x == 4 || x == 5 || x == 6 || x == 7;
  }

  /** The options x enables are those whose bit is set in x. */
  lemma EnabledBits(x: nat)
    ensures Enabled(x) == (if (x / 4) % 2 == 1 then [CasingFirst] else [])
      + (if (x / 2) % 2 == 1 then [CasingUpper] else [])
      + (if x % 2 == 1 then [CasingLower] else [])
  {
    assert Pow2(0) == 1 && Pow2(1) == 2 && Pow2(2) == 4;
    BitAndPowerOfTwo(0, x);
    BitAndPowerOfTwo(1, x);
    BitAndPowerOfTwo(2, x);
    var s1, s2 := [CasingUpper, CasingLower], [CasingLower];
    assert CasingScan[1..] == s1 && s1[1..] == s2 && s2[1..] == [];
    assert EnabledAmong(x, s2) == (if x % 2 == 1 then [CasingLower] else []);
    assert EnabledAmong(x, s1) == (if (x / 2) % 2 == 1 then [CasingUpper] else []) + EnabledAmong(x, s2);
  }

  /** `casing & CASING_ALL` for a non-negative casing is its remainder
      mod 8; the model uses the remainder for every integer, which is what
      the low three bits of a two's-complement value are. */
  lemma CasingMask(casing: nat)
    ensures BitAnd(casing, CasingAll) == casing % 8
  {
    assert Pow2(3) == 8;
    BitAndLowMask(casing, 3);
  }

  /** The k-th entry of s counting from 1, or 0 when there is none. */
  function Rank(s: seq<nat>, k: int): nat
  {
    if 1 <= k <= |s| then s[k - 1] else 0
  }

  /** The casing method generate() selects for rank k: the k-th enabled
      option scanning from the highest bit, 0 for a rank out of range. */
  function Selected(x: nat, k: int): nat
  {
    Rank(Enabled(x), k)
  }

  /** The count loop of init(): test each option bit from the highest down. */
  method CountCasingOptions(options: nat) returns (count: nat)
    ensures count == |Enabled(options)|
  {
    count := 0;
    var optionMask: nat := (CasingAll + 1) / 2;
    ghost var j := 0;
    while true
      invariant 0 <= j < 3 && optionMask == CasingScan[j]
      invariant count + |EnabledAmong(options, CasingScan[j..])| == |Enabled(options)|
      decreases optionMask
    {
      assert CasingScan[j..][1..] == CasingScan[j + 1..];
      if BitAnd(optionMask, options) != 0 {
        count := count + 1;
      }
      optionMask := optionMask / 2;
      j := j + 1;
      if optionMask == 0 {
        break;
      }
    }
  }

  /** The selection loop of generate(): the option whose rank among the
      enabled ones, counted from the highest bit, is `index`. */
  method SelectCasingMethod(options: nat, index: int) returns (casingMethod: nat)
    ensures casingMethod == Selected(options, index)
  {
    var optionMask: nat := (CasingAll + 1) / 2;
    var i := 1;
    casingMethod := 0;
    ghost var j := 0;
    while true
      invariant 0 <= j < 3 && optionMask == CasingScan[j]
      invariant Rank(EnabledAmong(options, CasingScan[j..]), index - i + 1) == Selected(options, index)
      decreases optionMask
    {
      assert CasingScan[j..][1..] == CasingScan[j + 1..];
      if BitAnd(optionMask, options) != 0 {
        if i == index {
          casingMethod := optionMask;
          break;
        } else {
          i := i + 1;
        }
      }
      optionMask := optionMask / 2;
      j := j + 1;
      if optionMask == 0 {
        break;
      }
    }
  }

  /** Every rank from 1 to the number of enabled options selects one of
      the three casings, so the switch never reaches its notice branch; a
      single enabled option is selected by rank 1. */
  lemma SelectedIsCasing(options: nat, k: int)
    requires 1 <= options <= CasingAll && 1 <= k <= |Enabled(options)|
    ensures Selected(options, k) in CasingScan && (options / Selected(options, k)) % 2 == 1
    ensures |Enabled(options)| == 1 ==> Selected(options, k) == options
  {
    EnabledOptions(options);
    assert Enabled(options)[k - 1] in Enabled(options);
  }

  // ---------------------------------------------------------------------------
  // init and generate

  /** The fields init() and generate() work on: dictionary_file and
      dictionary_size (both null until configured), casing_options and
      casing_options_count. */
  datatype FileConfig = FileConfig(file: Option<string>, size: Option<nat>, options: nat, count: nat)

  const DefaultConfig: FileConfig := FileConfig(None, None, CasingLower, 1)

  /** The casing options are a valid bitmask and the cached count is the
      number of options it enables. */
  predicate CasingConsistent(c: FileConfig)
  {
    1 <= c.options <= CasingAll && c.count == |Enabled(c.options)|
  }

  /** The settings init() understands: a string "dictionary" and an
      integer "casing". */
  predicate Understood(s: Settings)
  {
    TextOrUnset(s, "dictionary") && NumberOrUnset(s, "casing")
  }

  datatype Configured = Configured(outcome: Outcome, config: FileConfig)

  /** What init() does with the dictionary setting: the path is stored
      first, so it stays even when counting its entries fails; the size
      changes only when counting succeeds. */
  function ConfigureDictionary(fs: FileSystem, c: FileConfig, path: string): (r: Configured)
    ensures r.config.file == Some(path) && r.config.options == c.options && r.config.count == c.count
    ensures r.outcome.Pass? <==> CountEntries(fs, path).Success?
    ensures r.outcome.Fail? ==> r.outcome.error == CountEntries(fs, path).error && r.config.size == c.size
    ensures r.outcome.Pass? ==> r.config.size == Some(CountEntries(fs, path).value)
  {
    var n := CountEntries(fs, path);
    if n.Failure? then Configured(Fail(n.error), c.(file := Some(path)))
    else Configured(Pass, c.(file := Some(path), size := Some(n.value)))
  }

  /** What init() does with the casing setting: a value with none of the
      three casing bits is refused and changes nothing; otherwise only the
      casing bits are kept and counted. */
  function ConfigureCasing(c: FileConfig, casing: int): (r: Configured)
    ensures r.config.file == c.file && r.config.size == c.size
    ensures r.outcome.Fail? <==> casing % 8 == 0
    ensures r.outcome.Fail? ==> r == Configured(Fail(InvalidCasing), c)
    ensures r.outcome.Pass? ==> r.config.options == casing % 8 && CasingConsistent(r.config)
  {
    var options := casing % 8;
    if options == 0 then Configured(Fail(InvalidCasing), c)
    else Configured(Pass, c.(options := options, count := |Enabled(options)|))
  }

  /** init(settings): ignore a non-array; then the dictionary setting, then
      the casing setting, stopping at the first exception. */
  function Configure(fs: FileSystem, c: FileConfig, s: Settings): (r: Configured)
    requires Understood(s)
    ensures !s.Entries? ==> r == Configured(Pass, c)
    ensures CasingConsistent(c) ==> CasingConsistent(r.config)
    ensures !IsSet(s, "casing") ==> r.config.options == c.options && r.config.count == c.count
    ensures !IsSet(s, "dictionary") ==> r.config.file == c.file && r.config.size == c.size
    ensures IsSet(s, "dictionary") ==> r.config.file == Some(s.entries["dictionary"].s)
  {
    if !s.Entries? then Configured(Pass, c)
    else
      var d := if IsSet(s, "dictionary") then ConfigureDictionary(fs, c, s.entries["dictionary"].s) else Configured(Pass, c);
      if d.outcome.Fail? || !IsSet(s, "casing") then d
      else ConfigureCasing(d.config, s.entries["casing"].n)
  }

  /** The casing rank generate() uses: drawn from [1, count] when more than
      one casing is enabled, else 1 without a draw. */
  function CasingRank(dev: Device, pool: seq<Byte>, count: nat): (k: Sample)
    ensures k.result.Success? ==> (1 <= k.result.value <= count || (count == 0 && k.result.value == 1))
    ensures count <= 1 ==> k == Sample(Success(1), pool, [])
  {
    if count > 1 then RandomNumber(dev, pool, 1, count) else Sample(Success(1), pool, [])
  }

  /** word is `w` with one of the enabled casings applied. */
  ghost predicate CasedFrom(word: string, w: string, options: nat)
  {
    exists m :: m in Enabled(options) && word == ApplyCasing(m, w)
  }

  /** generate(): refuse an unconfigured or empty dictionary, draw an entry
      index, read that entry, draw a casing rank and apply its casing. */
  function Choose(dev: Device, fs: FileSystem, pool: seq<Byte>, prng: PrngState, c: FileConfig): (r: Run<string>)
    requires CasingConsistent(c)
    ensures r.prng == prng
    ensures c.file.None? ==> r == Run(Failure(DictionaryNotConfigured), pool, prng)
    ensures c.file.Some? && (c.size.None? || c.size.value == 0) ==> r == Run(Failure(DictionaryEmpty), pool, prng)
    ensures r.result.Success? ==> Readable(fs, c.file.value)
    ensures r.result.Success? ==> exists i :: 0 <= i < |fs[c.file.value].lines| && CasedFrom(r.result.value, Trim(fs[c.file.value].lines[i]), c.options)
  {
    if c.file.None? then Run(Failure(DictionaryNotConfigured), pool, prng)
    else if c.size.None? || c.size.value == 0 then Run(Failure(DictionaryEmpty), pool, prng)
    else
      var e := RandomNumber(dev, pool, 0, c.size.value - 1);
      if e.result.Failure? then Run(Failure(e.result.error), e.rest, prng)
      else
        var w := FindEntry(fs, c.file.value, e.result.value);
        if w.Failure? then Run(Failure(w.error), e.rest, prng)
        else
          var k := CasingRank(dev, e.rest, c.count);
          if k.result.Failure? then Run(Failure(k.result.error), k.rest, prng)
          else
            var m := Selected(c.options, k.result.value);
            assert CasedFrom(ApplyCasing(m, w.value), w.value, c.options) by {
              EnabledOptions(c.options);
              SelectedIsCasing(c.options, k.result.value);
              assert m in Enabled(c.options);
            }
            Run(Success(ApplyCasing(m, w.value)), k.rest, prng)
  }

  /** With one casing enabled, the word is the drawn entry in that casing
      and only the entry index is drawn. */
  lemma ChooseOneCasing(dev: Device, fs: FileSystem, pool: seq<Byte>, prng: PrngState, c: FileConfig)
    requires CasingConsistent(c) && c.count == 1 && c.file.Some? && c.size.Some? && c.size.value > 0
    ensures var e := RandomNumber(dev, pool, 0, c.size.value - 1);
      var r := Choose(dev, fs, pool, prng, c);
      r.result.Success? ==>
        && e.result.Success?
        && r == Run(Success(ApplyCasing(c.options, FindEntry(fs, c.file.value, e.result.value).value)), e.rest, prng)
  {
    SelectedIsCasing(c.options, 1);
  }

  class DictionaryFileAlgorithm {
    const keygen: KeyGen
    /** The files the dictionary paths name. */
    const fs: FileSystem
    var dictionaryFile: Option<string>
    var dictionarySize: Option<nat>
    var casingOptions: nat
    var casingOptionsCount: nat

    function Current(): FileConfig
      reads this
    {
      FileConfig(dictionaryFile, dictionarySize, casingOptions, casingOptionsCount)
    }

    ghost predicate Valid()
      reads this
    {
      CasingConsistent(Current())
    }

    /** A new instance as the framework creates it: no dictionary, lower
        case only, and a key generator of its own. */
    constructor (entropy: EntropyDevice, prng: MersenneTwister, fs: FileSystem)
      ensures Valid() && fresh(keygen)
      ensures keygen.entropy == entropy && keygen.prng == prng && this.fs == fs
      ensures Current() == DefaultConfig
    {
      EnabledBits(CasingLower);
      dictionaryFile, dictionarySize := None, None;
      casingOptions, casingOptionsCount := CasingLower, 1;
      this.fs := fs;
      keygen := new KeyGen(entropy, prng);
    }

    method Init(s: Settings) returns (outcome: Outcome)
      requires Valid() && Understood(s)
      modifies this
      ensures Valid()
      ensures Configured(outcome, Current()) == Configure(fs, old(Current()), s)
    {
      if !s.Entries? {
        return Pass;
      }
      if IsSet(s, "dictionary") {
        dictionaryFile := Some(s.entries["dictionary"].s);
        var n := CountDictionaryEntries(fs, dictionaryFile.value);
        if n.Failure? {
          return Fail(n.error);
        }
        dictionarySize := Some(n.value);
      }
      if IsSet(s, "casing") {
        var options := s.entries["casing"].n % (CasingAll + 1);
        if options == 0 {
          return Fail(InvalidCasing);
        }
        casingOptions := options;
        casingOptionsCount := CountCasingOptions(casingOptions);
      }
      outcome := Pass;
    }

    method Generate() returns (r: Result<string>)
      requires Valid()
      modifies keygen.entropy
      ensures Run(r, keygen.entropy.pool, keygen.prng.State())
           == Choose(keygen.entropy.Status(), fs, old(keygen.entropy.pool), keygen.prng.State(), Current())
    {
      if dictionaryFile.None? {
        return Failure(DictionaryNotConfigured);
      }
      if dictionarySize.None? || dictionarySize.value == 0 {
        return Failure(DictionaryEmpty);
      }
      var entry: Result<int>;
      ghost var candidates: seq<int>;
      entry, candidates := keygen.GetRandomNumber(0, dictionarySize.value - 1);
      if entry.Failure? {
        return Failure(entry.error);
      }
      var word := FindDictionaryEntry(fs, dictionaryFile.value, entry.value);
      if word.Failure? {
        return Failure(word.error);
      }
      var casingMethodIndex: int;
      if casingOptionsCount > 1 {
        var index: Result<int>;
        index, candidates := keygen.GetRandomNumber(1, casingOptionsCount);
        if index.Failure? {
          return Failure(index.error);
        }
        casingMethodIndex := index.value;
      } else {
        casingMethodIndex := 1;
      }
      var casingMethod := SelectCasingMethod(casingOptions, casingMethodIndex);
      r := Success(ApplyCasing(casingMethod, word.value));
    }
  }
}
