# web2all/crypt in Dafny

A model of the core of the Web2All crypt library (PHP). The model covers:

- **KeyGen**: the key generator.
  - `getRandomNumber` draws unbiased integers by rejection sampling over bytes of `/dev/urandom`.
  - `getRandomNumbersBaseX` draws batches of bounded integers from `mt_rand`, reseeded from the random device every 30 draws.
  - `getRandomKeyStrong` and `getRandomKey` build random keys over a configurable alphabet.
- **PassGen**: the password generator. It builds one algorithm instance per named definition and concatenates their outputs in the configured structure.
- **The three password parts**: a random string (`RandomStringAlgorithm`), a pick from an in-memory word list (`DictionaryArrayAlgorithm`), and a pick from a dictionary file with a random casing (`DictionaryFileAlgorithm`).
- **PasswordStrength**: the strength tiers of a password.
- **TimedKey**: time-windowed keys that can be checked again without being stored.

Each source class whose methods update fields becomes a Dafny class with those fields: `KeyGen`, the random device, the Mersenne Twister, the three algorithms and `PassGen`. Each method is proved equal to a specification function of the old state and its inputs, and the properties the library promises are proved about those functions.

- Loops that work step by step are `while` loops with invariants. These are:
  - the rejection loop;
  - the reseeding batch loop;
  - the key spelling loop;
  - the dictionary scans, casing counts and casing selection;
  - `initAlgorithms` and `generate` of PassGen;
  - the class count of `checkStrength`;
  - the window loop of `validateKey`.
- Pure code is pure functions. This covers the strength table, the time windows, the settings logic and the bit arithmetic.

The environment is made explicit:

- **Parameters** (passed in as values):
  - the random device: whether it is readable, whether it opens, and the bytes it will return;
  - the file system: for each path, readable or not, openable or not, and its lines;
  - the clock: `now`;
  - TimedKey's helpers: the hash functions, base64, the way a window is written into a string, and PHP's loose `==`.
- **Abstracted**: `mt_rand`. It is a generator function of the seed, the draw count and the range, constrained only to that range. Since PHP 7.1 range rejection can make a draw depend on the ranges of earlier draws since the seed; this is not modelled, and within the core every run between two seeds uses a single range.

The source's default arguments are default parameter values: `length := 40` for both key methods, `length := 1` for `getRandomBytes`, `length := 8` and no `chars` for the random string algorithm, the dictionary `['-']` for the dictionary array algorithm, `extradata := ""` and `windowcount := 3` for TimedKey, and a salt of "" for its configuration.

Modules, one per file: `Errors`, `Bits`, `Entropy`, `Prng`, `KeyGenerator`, `Settings`, `RandomString`, `DictionaryArray`, `DictionaryFile`, `PassGenerator`, `PasswordStrength`, `TimedKeys`.

## Model

| member | source | states |
|---|---|---|
| Entropy.Taken | src/Web2All/Crypt/KeyGen.class.php:54 | a read of `length` bytes takes that many, or what is left; for a length of 0 or less `fread` returns `false`, which the model represents as the empty sequence |
| Entropy.EntropyDevice.Fread | src/Web2All/Crypt/KeyGen.class.php:54 | `fread` returns the first bytes of the device and leaves the rest; the two put together are the old contents |
| Prng.Rand | src/Web2All/Crypt/KeyGen.class.php:131 | `mt_rand(lo, hi)` gives a number iff `lo <= hi`; the number lies in `[lo, hi]` and the draw count advances by one; otherwise it returns `false` and the state is unchanged |
| Prng.MersenneTwister.MtRand | src/Web2All/Crypt/KeyGen.class.php:131 | the stateful `mt_rand` matches `Rand` on the old state |
| Prng.MersenneTwister.Srand | src/Web2All/Crypt/KeyGen.class.php:125 | `mt_srand(seed)` restarts the sequence of that seed |
| KeyGenerator.RandomBytes | src/Web2All/Crypt/KeyGen.class.php:49-63 | an unreadable device fails with "no /dev/urandom", one that does not open with "error reading"; otherwise a prefix of the device of at most `length` bytes is returned and consumed |
| KeyGenerator.KeyGen.GetRandomBytes | src/Web2All/Crypt/KeyGen.class.php:49-63 | the method reads the device exactly as `RandomBytes` says; `length` defaults to 1 |
| KeyGenerator.KeyGen.constructor | src/Web2All/Crypt/KeyGen.class.php:15-18 | a new generator has the base 62 alphabet and a consistent size |
| KeyGenerator.KeyGen.SetBase62Chars | src/Web2All/Crypt/KeyGen.class.php:145-149 | the alphabet becomes the 62 digits and letters, with size 62 |
| KeyGenerator.KeyGen.SetBase64Chars | src/Web2All/Crypt/KeyGen.class.php:155-159 | the alphabet becomes the 62 plus `/+`, with size 64 |
| KeyGenerator.KeyGen.SetKeyCharacters | src/Web2All/Crypt/KeyGen.class.php:168-172 | the alphabet becomes the given string and its size its length |
| KeyGenerator.KeyGen.GetKeyCharacters | src/Web2All/Crypt/KeyGen.class.php:179-182 | returns the current alphabet and ignores its argument |
| Bits.BitLengthBounds | src/Web2All/Crypt/KeyGen.class.php:241-248 | the number of halvings that empties `n` is its bit length: `2^(bits-1) <= n < 2^bits` |
| KeyGenerator.MaskCoversRange | src/Web2All/Crypt/KeyGen.class.php:241-248 | the setup loop gives `mask = 2^bits - 1` with `range <= mask < 2 * range`, and `bytes` is `bits / 8` rounded up |
| KeyGenerator.RandomNumber | src/Web2All/Crypt/KeyGen.class.php:197-302 | `min > max` is exactly the "minimum must be less than or equal" failure; `min == max` returns `min` and reads nothing; any value returned lies in `[min, max]`; at most 129 candidates are drawn |
| KeyGenerator.KeyGen.GetRandomNumber | src/Web2All/Crypt/KeyGen.class.php:197-302 | the method returns, consumes and draws candidates exactly as `RandomNumber` says |
| KeyGenerator.Rejection | src/Web2All/Crypt/KeyGen.class.php:257-299 | the do-while: a success is the last candidate drawn and lies in range; giving up means 129 candidates were drawn; a device error draws none and consumes nothing |
| KeyGenerator.KeyGen.DrawUntilInRange | src/Web2All/Crypt/KeyGen.class.php:257-299 | the loop method matches `Rejection` from attempt 0 |
| KeyGenerator.KeyGen.DrawCandidate | src/Web2All/Crypt/KeyGen.class.php:269-290 | one attempt: read `bytes` bytes, assemble them little-endian, AND with the mask and add `min`; a read error is passed on |
| Bits.AssembleLittleEndian | src/Web2All/Crypt/KeyGen.class.php:281-284 | OR-ing each byte shifted by `8 * i` gives the little-endian value of the bytes, below `2^(8n)` |
| Bits.BitOrShifted | src/Web2All/Crypt/KeyGen.class.php:283 | OR with a value shifted past the bits already set is addition |
| Bits.BitAndLowMask | src/Web2All/Crypt/KeyGen.class.php:289 | AND with `2^b - 1` keeps the value modulo `2^b` |
| KeyGenerator.RejectionCandidates | src/Web2All/Crypt/KeyGen.class.php:281-299 | every candidate lies in `[min, min + mask]`; every rejected one is above `max` |
| KeyGenerator.RandomNumberRejects | src/Web2All/Crypt/KeyGen.class.php:257-299 | candidates lie in `[min, min + 2 * (max - min))`; "RNG is broken" iff all 129 candidates were above `max`, so out-of-range values are discarded and never reduced |
| KeyGenerator.RejectionGivesUp | src/Web2All/Crypt/KeyGen.class.php:262-264 | the guard checked before each draw fails at attempt 129 without reading |
| KeyGenerator.RejectionConsumption | src/Web2All/Crypt/KeyGen.class.php:269 | each candidate consumes `bytes` bytes (or what is left) of the device |
| KeyGenerator.CeilDiv | src/Web2All/Crypt/KeyGen.class.php:96 | `ceil(a / d)` for a positive divisor, characterised by its bounds |
| KeyGenerator.ReseedAccounting | src/Web2All/Crypt/KeyGen.class.php:96-128 | the bytes requested, `(ceil(amount / 30) + 1) * 4`, are four per reseed: one before every 30th draw and one after the last |
| KeyGenerator.ReseedSchedule | src/Web2All/Crypt/KeyGen.class.php:109-128 | a reseed comes before draw `i` iff `i mod 30 == 0`, and each value is the draw of the seed formed from the matching 4 bytes |
| KeyGenerator.Batch | src/Web2All/Crypt/KeyGen.class.php:99-136 | the reseeding loop over given bytes yields exactly `max(amount, 0)` values: all numbers in `[0, base - 1]` when `base >= 1`, all `false` otherwise; either way the PRNG ends on the seed after those the draws used, at draw 0 |
| KeyGenerator.ValuesInRange | src/Web2All/Crypt/KeyGen.class.php:131-133 | every value of the batch is the draw the schedule assigns to its position: a number in `[0, base - 1]` when `base >= 1`, `false` otherwise |
| KeyGenerator.NumbersBaseX | src/Web2All/Crypt/KeyGen.class.php:87-138 | `getRandomNumbersBaseX`: fails only with the device errors, in source order; otherwise exactly `amount` values, numbers in `[0, base - 1]` for `base >= 1` and `false` for `base < 1`, the final reseed done and the device short by exactly the requested bytes |
| KeyGenerator.KeyGen.Reseed | src/Web2All/Crypt/KeyGen.class.php:113-125 | a reseed seeds the PRNG with the little-endian word of the next 4 bytes, `b0 + 256 b1 + 65536 b2 + 16777216 b3`, and drops them |
| Bits.WordOfFour | src/Web2All/Crypt/KeyGen.class.php:119-123 | the value of four bytes little-endian is `b0 + 256 b1 + 65536 b2 + 16777216 b3` |
| KeyGenerator.KeyGen.DrawBatch | src/Web2All/Crypt/KeyGen.class.php:99-136 | the while loop matches `Batch`, including the draws that return `false` and the final reseed |
| KeyGenerator.KeyGen.GetRandomNumbersBaseX | src/Web2All/Crypt/KeyGen.class.php:87-138 | the method matches `NumbersBaseX` on the old device and PRNG |
| KeyGenerator.Spell | src/Web2All/Crypt/KeyGen.class.php:74-76 | when every value is a number, the key has one character per value, the alphabet at that number; over an empty alphabet the key is "" |
| KeyGenerator.CharAt | src/Web2All/Crypt/KeyGen.class.php:35 | `$alphabet{$num}` is the character at a number inside the alphabet, and "" for any offset into an empty alphabet |
| KeyGenerator.RandomKeyStrong | src/Web2All/Crypt/KeyGen.class.php:71-78 | `getRandomKeyStrong`: fails iff the device does not work; otherwise a key over the alphabet, of the requested length when the alphabet is not empty and "" when it is |
| KeyGenerator.KeyGen.GetRandomKeyStrong | src/Web2All/Crypt/KeyGen.class.php:71-78 | the method matches `RandomKeyStrong`; `length` defaults to 40 |
| KeyGenerator.StrongKeyOverCustomAlphabet | src/Web2All/Crypt/KeyGen.class.php:71-78 | with a working device, a 10-character alphabet gives a 5-character key over it |
| KeyGenerator.EmptyAlphabetStrongKey | src/Web2All/Crypt/KeyGen.class.php:71-78 | with a working device and an empty alphabet the key is "", yet the whole seed budget is read and the final reseed done |
| KeyGenerator.RandomKey | src/Web2All/Crypt/KeyGen.class.php:32-38 | `getRandomKey`: every character is in the alphabet; a non-empty alphabet gives one `mt_rand` draw per character and the requested length; an empty one gives "" and leaves the PRNG unchanged |
| KeyGenerator.KeyGen.GetRandomKey | src/Web2All/Crypt/KeyGen.class.php:32-38 | the loop method matches `RandomKey`; `length` defaults to 40 |
| RandomString.Configure | src/Web2All/Crypt/PassGen/RandomStringAlgorithm.class.php:53-64 | `init`: non-array settings change nothing; a set `length` or `chars` replaces its part and an unset one keeps it |
| RandomString.Output | src/Web2All/Crypt/PassGen/RandomStringAlgorithm.class.php:71-74 | `generate`: fails iff the device does not work; otherwise a key over the configured alphabet, of the configured length, or "" when the alphabet is empty |
| RandomString.RandomStringAlgorithm.constructor | src/Web2All/Crypt/PassGen/RandomStringAlgorithm.class.php:37-46 | a fresh key generator on the shared sources; the alphabet changes from base 62 only when `chars` is given |
| RandomString.RandomStringAlgorithm.Init | src/Web2All/Crypt/PassGen/RandomStringAlgorithm.class.php:53-64 | the new length and alphabet are `Configure` of the old |
| RandomString.RandomStringAlgorithm.Generate | src/Web2All/Crypt/PassGen/RandomStringAlgorithm.class.php:71-74 | the method matches `Output` |
| DictionaryArray.Configure | src/Web2All/Crypt/PassGen/DictionaryArrayAlgorithm.class.php:57-66 | `init` replaces the dictionary only when `dictionary` is set and is a list |
| DictionaryArray.Pick | src/Web2All/Crypt/PassGen/DictionaryArrayAlgorithm.class.php:73-77 | `generate` returns an element of the dictionary and leaves the PRNG alone; an empty dictionary fails with getRandomNumber's min-above-max error; a one-word dictionary returns its word and reads nothing |
| DictionaryArray.DefaultPicksDash | src/Web2All/Crypt/PassGen/DictionaryArrayAlgorithm.class.php:43-48 | the default dictionary `['-']` always gives `-` |
| DictionaryArray.DictionaryArrayAlgorithm.constructor | src/Web2All/Crypt/PassGen/DictionaryArrayAlgorithm.class.php:43-50 | the dictionary is stored 0-indexed with its size, and the key generator is fresh |
| DictionaryArray.DictionaryArrayAlgorithm.Init | src/Web2All/Crypt/PassGen/DictionaryArrayAlgorithm.class.php:57-66 | the new dictionary is `Configure` of the old, with the size kept consistent |
| DictionaryArray.DictionaryArrayAlgorithm.Generate | src/Web2All/Crypt/PassGen/DictionaryArrayAlgorithm.class.php:73-77 | the method matches `Pick` |
| DictionaryFile.TrimLeft | src/Web2All/Crypt/PassGen/DictionaryFileAlgorithm.class.php:167 | drops exactly the leading blanks of `trim` |
| DictionaryFile.TrimRight | src/Web2All/Crypt/PassGen/DictionaryFileAlgorithm.class.php:167 | drops exactly the trailing blanks of `trim` |
| DictionaryFile.TrimEmpty | src/Web2All/Crypt/PassGen/DictionaryFileAlgorithm.class.php:167 | a line trims to "" iff it is all blanks; otherwise the trimmed word starts and ends with a non-blank |
| DictionaryFile.CountLines | src/Web2All/Crypt/PassGen/DictionaryFileAlgorithm.class.php:165-172 | the count succeeds iff no line trims to "", and then is the number of lines; otherwise "dictionary file has empty lines" |
| DictionaryFile.CountLinesRejects | src/Web2All/Crypt/PassGen/DictionaryFileAlgorithm.class.php:167-169 | any blank line anywhere makes the count fail |
| DictionaryFile.CountEntries | src/Web2All/Crypt/PassGen/DictionaryFileAlgorithm.class.php:156-181 | `countDictionaryEntries`: "not readable", then "could not open", then the line count |
| DictionaryFile.ScanLines | src/Web2All/Crypt/PassGen/DictionaryFileAlgorithm.class.php:165-172 | the while loop over the lines matches `CountLines` |
| DictionaryFile.CountDictionaryEntries | src/Web2All/Crypt/PassGen/DictionaryFileAlgorithm.class.php:156-181 | the method matches `CountEntries` |
| DictionaryFile.LineAt | src/Web2All/Crypt/PassGen/DictionaryFileAlgorithm.class.php:200-209 | the scan finds a line iff `0 <= index < lines`, returns it trimmed, and otherwise fails with "not enough entries" |
| DictionaryFile.FindEntry | src/Web2All/Crypt/PassGen/DictionaryFileAlgorithm.class.php:191-213 | `findDictionaryEntry`: the same file errors, then `LineAt` |
| DictionaryFile.FindDictionaryEntry | src/Web2All/Crypt/PassGen/DictionaryFileAlgorithm.class.php:191-213 | the method matches `FindEntry` |
| DictionaryFile.ToLower | src/Web2All/Crypt/PassGen/DictionaryFileAlgorithm.class.php:262 | `strtolower`: same length, every character lowered, no upper-case ASCII letter left |
| DictionaryFile.ToUpper | src/Web2All/Crypt/PassGen/DictionaryFileAlgorithm.class.php:265 | `strtoupper`: same length, every character raised, no lower-case ASCII letter left |
| DictionaryFile.UcFirst | src/Web2All/Crypt/PassGen/DictionaryFileAlgorithm.class.php:268 | `ucfirst`: only the first character is raised and the rest is kept |
| DictionaryFile.CasingMask | src/Web2All/Crypt/PassGen/DictionaryFileAlgorithm.class.php:129-134 | `casing & CASING_ALL` is `casing mod 8` |
| DictionaryFile.EnabledOptions | src/Web2All/Crypt/PassGen/DictionaryFileAlgorithm.class.php:136-144 | for a valid mask, the options scanned from bit 4 down to bit 1 are exactly its set bits; 1 to 3 of them, and a single one is the mask itself |
| DictionaryFile.EnabledBits | src/Web2All/Crypt/PassGen/DictionaryFileAlgorithm.class.php:138-144 | the scan order is FIRST, UPPER, LOWER |
| DictionaryFile.CountCasingOptions | src/Web2All/Crypt/PassGen/DictionaryFileAlgorithm.class.php:136-144 | the do-while popcount counts the enabled options |
| DictionaryFile.SelectCasingMethod | src/Web2All/Crypt/PassGen/DictionaryFileAlgorithm.class.php:240-258 | the do-while with `break` picks the index-th enabled option, or 0 when there is none |
| DictionaryFile.SelectedIsCasing | src/Web2All/Crypt/PassGen/DictionaryFileAlgorithm.class.php:245-258 | a rank in `[1, count]` selects an enabled casing bit, and with one option that option |
| DictionaryFile.ConfigureDictionary | src/Web2All/Crypt/PassGen/DictionaryFileAlgorithm.class.php:124-127 | the file is replaced even when counting fails; the size changes only when counting succeeds; a count error is passed on |
| DictionaryFile.ConfigureCasing | src/Web2All/Crypt/PassGen/DictionaryFileAlgorithm.class.php:128-145 | a casing with no supported bit fails with "invalid casing" and changes nothing; otherwise the options are `casing & 7` with their count |
| DictionaryFile.Configure | src/Web2All/Crypt/PassGen/DictionaryFileAlgorithm.class.php:119-146 | `init`: non-array settings change nothing; unset keys keep their part; the options and their count stay consistent |
| DictionaryFile.CasingRank | src/Web2All/Crypt/PassGen/DictionaryFileAlgorithm.class.php:235-239 | a rank is drawn in `[1, count]` only when there is more than one option, and is 1 otherwise without reading |
| DictionaryFile.Choose | src/Web2All/Crypt/PassGen/DictionaryFileAlgorithm.class.php:223-277 | `generate`: "not configured" without a file; "empty" for a missing or zero size; any word returned is one of the file's trimmed lines under an enabled casing; the PRNG is not used |
| DictionaryFile.ChooseOneCasing | src/Web2All/Crypt/PassGen/DictionaryFileAlgorithm.class.php:232-239 | with one casing option, a success is the drawn line under that casing, and reads only the entry's bytes |
| DictionaryFile.DictionaryFileAlgorithm.constructor | src/Web2All/Crypt/PassGen/DictionaryFileAlgorithm.class.php:97-107 | no file, no size, lower case only with count 1, and a fresh key generator |
| DictionaryFile.DictionaryFileAlgorithm.Init | src/Web2All/Crypt/PassGen/DictionaryFileAlgorithm.class.php:119-146 | the outcome and new configuration are `Configure` of the old |
| DictionaryFile.DictionaryFileAlgorithm.Generate | src/Web2All/Crypt/PassGen/DictionaryFileAlgorithm.class.php:223-277 | the method matches `Choose` |
| PassGenerator.Setup | src/Web2All/Crypt/PassGen.class.php:96-101 | a fresh instance of the named class, on which `init` runs iff the definition has settings; only a dictionary file can fail there |
| PassGenerator.Setups | src/Web2All/Crypt/PassGen.class.php:95-101 | one set-up instance per definition, in order, under its name |
| PassGenerator.Assemble | src/Web2All/Crypt/PassGen.class.php:94-102 | the foreach stops at the first failing `init` and keeps the entry it just stored; it succeeds iff every `init` passes, and then the keys are exactly the names |
| PassGenerator.Build | src/Web2All/Crypt/PassGen.class.php:92-103 | `initAlgorithms`: the same over the definitions |
| PassGenerator.AssembleParts | src/Web2All/Crypt/PassGen.class.php:95-102 | with distinct names, each name maps to its own set-up instance |
| PassGenerator.BuildParts | src/Web2All/Crypt/PassGen.class.php:92-103 | with distinct names, each definition's instance is stored under its name |
| PassGenerator.AssembleNext | src/Web2All/Crypt/PassGen.class.php:97-100 | one step of the foreach stores the next instance under its name |
| PassGenerator.AssembleStopsAt | src/Web2All/Crypt/PassGen.class.php:100 | after a failing `init` nothing later in the loop runs |
| PassGenerator.Producers | src/Web2All/Crypt/PassGen.class.php:117 | the `generate` of each instance, as a value |
| PassGenerator.Compose | src/Web2All/Crypt/PassGen.class.php:110-120 | an empty structure gives ""; a success implies every part name was defined |
| PassGenerator.ComposeAppend | src/Web2All/Crypt/PassGen.class.php:112-119 | the password of a structure `a + b` is that of `a` followed by that of `b`, run on what `a` left of the device and PRNG; a failure in `a` is final |
| PassGenerator.ComposeStopsAtUndefined | src/Web2All/Crypt/PassGen.class.php:114-116 | an undefined name fails with "undefined algorithm" once the parts before it succeed; no later part runs |
| PassGenerator.ComposeOne | src/Web2All/Crypt/PassGen.class.php:113-117 | one name gives "undefined algorithm" or that instance's `generate` |
| PassGenerator.ComposeRepeated | src/Web2All/Crypt/PassGen.class.php:112-119 | a name used twice in the structure runs the same instance twice, the second from what the first left, and joins the two outputs |
| PassGenerator.ComposeStops | src/Web2All/Crypt/PassGen.class.php:113-118 | a failing prefix of the structure is the result of the whole |
| PassGenerator.ComposeNext | src/Web2All/Crypt/PassGen.class.php:113-118 | one step of the foreach appends one part, or ends with its error |
| PassGenerator.DefaultPassword | src/Web2All/Crypt/PassGen.class.php:51-59 | the default configuration sets up without error and, with a working device, gives 8 base 62 characters |
| PassGenerator.PassGen.constructor | src/Web2All/Crypt/PassGen.class.php:46-65 | the default definitions and structure, with the algorithms built from them |
| PassGenerator.PassGen.SetAlgorithmConfig | src/Web2All/Crypt/PassGen.class.php:72-76 | the definitions are replaced and the algorithms rebuilt as `Build` says; the structure is kept |
| PassGenerator.PassGen.SetPasswordStructure | src/Web2All/Crypt/PassGen.class.php:83-86 | only the structure changes |
| PassGenerator.PassGen.NewInstance | src/Web2All/Crypt/PassGen.class.php:97 | the plugin factory: a fresh instance of the kind, sharing the random sources |
| PassGenerator.PassGen.InitInstance | src/Web2All/Crypt/PassGen.class.php:98-101 | `init` with the definition's settings gives what `Setup` says |
| PassGenerator.PassGen.MakeInstance | src/Web2All/Crypt/PassGen.class.php:96-101 | a new instance set up as `Setup` says |
| PassGenerator.PassGen.PutInstance | src/Web2All/Crypt/PassGen.class.php:97 | storing an instance changes only that name's entry |
| PassGenerator.PassGen.AddAlgorithm | src/Web2All/Crypt/PassGen.class.php:96-101 | one iteration: the name now holds the set-up instance, and every other entry is unchanged |
| PassGenerator.PassGen.InitAlgorithms | src/Web2All/Crypt/PassGen.class.php:92-103 | the loop leaves the algorithms and outcome that `Build` gives |
| PassGenerator.PassGen.GenerateWith | src/Web2All/Crypt/PassGen.class.php:117 | an instance's `generate` matches `Produce` on its state |
| PassGenerator.PassGen.GeneratePart | src/Web2All/Crypt/PassGen.class.php:114-117 | an undefined name fails without touching the device or PRNG; a defined one runs its instance |
| PassGenerator.PassGen.Generate | src/Web2All/Crypt/PassGen.class.php:110-120 | the loop's password, device and PRNG are `Compose` of the structure over the instances; nothing else changes |
| PasswordStrength.Kept | src/Web2All/Crypt/PasswordStrength.class.php:99-100 | the bytes `preg_replace` keeps for a class are all of that class and at least one exists iff the password has one |
| PasswordStrength.FoundAmong | src/Web2All/Crypt/PasswordStrength.class.php:91-104 | each class found appears with its positive count |
| PasswordStrength.CountClasses | src/Web2All/Crypt/PasswordStrength.class.php:83-104 | the foreach builds the classes found in the order lower, upper, digit, joiner, special |
| PasswordStrength.MinimumCharactersInClass | src/Web2All/Crypt/PasswordStrength.class.php:186-193 | true iff every class found has at least the minimum |
| PasswordStrength.CheckStrength | src/Web2All/Crypt/PasswordStrength.class.php:77-177 | the sequential rules give the highest tier whose conditions hold |
| PasswordStrength.CountsAddUp | src/Web2All/Crypt/PasswordStrength.class.php:83-89 | every byte is in exactly one of the five classes |
| PasswordStrength.CountsPartition | src/Web2All/Crypt/PasswordStrength.class.php:91-104 | the counts of the classes found add up to the length |
| PasswordStrength.FoundExactly | src/Web2All/Crypt/PasswordStrength.class.php:99-103 | a class is found iff the password has a byte of it |
| PasswordStrength.StrengthRange | src/Web2All/Crypt/PasswordStrength.class.php:79-176 | the strength is between very weak and very strong |
| PasswordStrength.EmptyIsVeryWeak | src/Web2All/Crypt/PasswordStrength.class.php:79-108 | no class is found iff the password is empty, and then it is very weak |
| PasswordStrength.OneClass | src/Web2All/Crypt/PasswordStrength.class.php:108-114 | one class: weak iff at least 20 bytes, else very weak |
| PasswordStrength.TwoClasses | src/Web2All/Crypt/PasswordStrength.class.php:115-128 | two classes: at most acceptable, which needs 22 bytes and 7 of each class; weak from 12 bytes |
| PasswordStrength.ThreeClasses | src/Web2All/Crypt/PasswordStrength.class.php:129-149 | three classes: strong iff 22 bytes and 5 of each; acceptable from 10 bytes and 2 of each; weak from 8 |
| PasswordStrength.FourOrMoreClasses | src/Web2All/Crypt/PasswordStrength.class.php:150-174 | four or more: very strong iff 22 bytes and 3 of each; strong from 15 bytes and 2 of each; acceptable from 10; weak from 8 |
| PasswordStrength.OneMoreCharacterCanWeaken | src/Web2All/Crypt/PasswordStrength.class.php:129-174 | 8 lower, 7 upper and 7 digits are strong, and one more `!` makes the password only acceptable |
| TimedKeys.DefaultConfig | src/Web2All/Crypt/TimedKey.class.php:49-58 | SHA1, the given salt (by default ""), no base64, windows of 3600 seconds |
| TimedKeys.Create | src/Web2All/Crypt/TimedKey.class.php:60-62 | the salt is taken from the merged configuration |
| TimedKeys.FloorDiv | src/Web2All/Crypt/TimedKey.class.php:143 | `floor(a / b)` over the reals, characterised by its bounds for either sign of `b` |
| TimedKeys.LastWindow | src/Web2All/Crypt/TimedKey.class.php:139-145 | a window length of 0 gives not-a-number and any other a whole number |
| TimedKeys.LastWindowBounds | src/Web2All/Crypt/TimedKey.class.php:139-145 | for a positive length `W` the last window `w` has `w mod W == 0`, `w <= now` and `now - w < W` |
| TimedKeys.NegativeWindowBounds | src/Web2All/Crypt/TimedKey.class.php:143 | for a negative length the window is a multiple of it in `[now, now + abs(W))` |
| TimedKeys.Earlier | src/Web2All/Crypt/TimedKey.class.php:111 | the window `i` lengths back is `last - W * i`, or not-a-number if the last one is |
| TimedKeys.Hash | src/Web2All/Crypt/TimedKey.class.php:75-86 | SHA1 and MD5 give their hash; any other type, CBC included, gives none |
| TimedKeys.GenerateKey | src/Web2All/Crypt/TimedKey.class.php:72-92 | fails with "unknown encryption type" iff the type is neither SHA1 nor MD5; otherwise the hash of salt, last window and extra data (by default ""), base64 encoded when configured |
| TimedKeys.ValidateKey | src/Web2All/Crypt/TimedKey.class.php:103-132 | the loop with early return matches `Validate`: windows `last - W * i` for `i = 0 ..` in order, true at the first match; extra data defaults to "" and the window count to 3 |
| TimedKeys.NoWindowsRefuses | src/Web2All/Crypt/TimedKey.class.php:110-131 | `windowcount <= 0` gives false, never an error, whatever the type |
| TimedKeys.UnknownTypeFails | src/Web2All/Crypt/TimedKey.class.php:119-124 | an unknown type fails once one window is to be checked |
| TimedKeys.ValidateMeansSomeWindow | src/Web2All/Crypt/TimedKey.class.php:108-131 | with a known type the key is accepted iff one of the first `windowcount` windows gives a key equal to it |
| TimedKeys.ScanMeansSomeWindow | src/Web2All/Crypt/TimedKey.class.php:110-130 | the same from window `i` on |
| TimedKeys.EarlierKeyAccepted | src/Web2All/Crypt/TimedKey.class.php:103-131 | a key generated in any of the windows checked is accepted with the same extra data |
| TimedKeys.RoundTrip | src/Web2All/Crypt/TimedKey.class.php:72-131 | a generated key validates in its own window whenever `windowcount >= 1`, base64 included, given that decoding undoes encoding and `==` is reflexive |
| TimedKeys.EarlierWindowTimes | src/Web2All/Crypt/TimedKey.class.php:111 | for a positive length, the times whose window is `i` lengths before the last are those in `[last - W * i, last - W * i + W)` |
| TimedKeys.ValidForTwoHours | src/Web2All/Crypt/TimedKey.class.php:33 | with the defaults a key made less than two hours ago is accepted, whenever `==` is reflexive |
| TimedKeys.ExpiresWithinThreeHours | src/Web2All/Crypt/TimedKey.class.php:33 | with the defaults a key made three hours ago or earlier is refused, when SHA1, the writing of windows and `==` tell different inputs apart |

## Left out

- I/O is data.
  - The random device is a byte sequence with two flags.
  - A dictionary file is a list of lines with two flags.
  - `fclose`, and `feof` failing after a complete read ("unknown error while reading dictionary file"), are not modelled.
- The Mersenne Twister's internals and the uniformity of any draw are not modelled. `mt_rand` is a function of seed, draw count and range with only its range contract.
- Probabilities are not modelled. The model states which value each byte sequence gives, not how likely it is.
- PHP's `is_int` checks in `getRandomNumber` and integer overflow are not modelled: integers are unbounded. The "Range is too big" error and the overflow-to-float retry cannot arise in the model.
- `getRandomNumbersBaseX`'s `assert('$binarystring!==""')` is not modelled. Missing seed bytes read as 0, as `ord` of an empty string gives.
- Type juggling of settings is not modelled. `init` is given settings whose entries have the types it reads (the `Understood` predicates). A wrong-typed entry is not modelled.
- The plugin factory and `makeConfig` are not modelled. Each algorithm receives the shared random device and PRNG, creates its own key generator, and PassGen receives the file system.
  - TimedKey takes the merged configuration as given.
  - PassGen's constructor always installs the default definitions and structure. A custom configuration is applied afterwards, through `SetAlgorithmConfig` and `SetPasswordStructure`.
- PassGen.AddAlgorithm: in the source the instance is stored before `init` runs on it. The model runs `init` first and then stores it. Both give the same map.
- DictionaryFile.DictionaryFileAlgorithm.constructor: the optional `$dictionary_file` argument is not modelled. PassGen constructs algorithms without it; `init` with a `dictionary` setting does the same work.
- PasswordStrength counts bytes. Multi-byte characters count as several bytes, and the five classes are predicates on byte values rather than regular expressions.
- TimedKeys: `time()` is the `now` argument. The hash functions, base64 and `==` are parameters. How a window is written into a string (PHP float-to-string of `floor(...) * W`) is also a parameter.
- TimedKeys: PHP floating-point precision for window values beyond 2^53 is not modelled. Division by zero is modelled only as its not-a-number result; PHP 7's warning is not modelled.
- PHP's warnings and notices are not modelled: `mt_rand` over an empty range, and reading an offset of an empty alphabet, only give their values (`false` and "").
- TimedKeys.Hash: the switch in the source compares loosely, so a non-string encryption type such as `0` could match `'SHA1'`. The model takes the type as a string compared exactly.
- DictionaryFile.ToLower, DictionaryFile.ToUpper, DictionaryFile.UcFirst: case mapping covers ASCII letters only. PHP 7's `strtolower`, `strtoupper` and `ucfirst` follow the current locale, which is not modelled.
- `DictionaryArrayAlgorithm` has no guard of its own for an empty dictionary. Its `generate` then fails with `getRandomNumber`'s min-above-max error.
- The source's doc comments disagree with the code in two places. The model follows the code:
  - The first-upper casing is documented as lowering the word and raising its first letter (DictionaryFileAlgorithm.class.php:39). It is `ucfirst` alone, which keeps the rest of the word as it is.
  - A reseed seed is described as signed (KeyGen.class.php:120). It is the unsigned little-endian OR of four bytes, which is what `mt_srand` is given.
