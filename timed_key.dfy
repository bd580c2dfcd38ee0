/** Time-limited keys: a hash of a salt, the start of the current time
    window and some caller data, which can be checked again later without
    being stored, against the last few windows. The hash functions, base64,
    the conversion of a window to text and PHP's loose string comparison are
    parameters; the clock is the `now` argument. */
module TimedKeys {
  import opened Errors

  /** The functions the class calls but does not define. */
  datatype Primitives = Primitives(
    sha1: string -> string,
    md5: string -> string,
    encode: string -> string,          // base64_encode
    decode: string -> string,          // base64_decode
    show: Stamp -> string,             // a window written into a string
    equals: (string, string) -> bool)  // the loose comparison ==

  /** The start of a window. The division is by the configured window
      length, so a length of 0 gives PHP's not-a-number. */
  datatype Stamp = Seconds(n: int) | NotANumber

  /** The configuration a TimedKey reads. */
  datatype Config = Config(encryptionType: string, salt: string, base64: bool, window: int)

  /** The defaults of the constructor, before the framework's own settings
      are merged over them: SHA1, unencoded, windows of an hour. */
  function DefaultConfig(salt: string := ""): (c: Config)
    ensures c.salt == salt && !c.base64
    ensures c.encryptionType == "SHA1" && c.window == 3600
  {
    Config("SHA1", salt, false, 3600)
  }

  /** A constructed TimedKey: the merged configuration and the salt taken
      from it. */
  datatype TimedKey = TimedKey(config: Config, salt: string)

  function Create(config: Config): (t: TimedKey)
    ensures t.config == config && t.salt == config.salt
  {
    TimedKey(config, config.salt)
  }

  // ---------------------------------------------------------------------------
  // Windows

  /** floor(a / b) over the reals, for b != 0. Dafny's division is
      Euclidean: it already rounds down when b > 0, and rounds up when b < 0
      and the division is not exact. */
  function FloorDiv(a: int, b: int): (q: int)
    requires b != 0
    ensures b > 0 ==> q * b <= a < q * b + b
    ensures b < 0 ==> q * b >= a > q * b + b
  {
    if b > 0 || a % b == 0 then a / b else a / b - 1
  }

  /** getLastWindow: floor(now / W) * W for the configured length W. */
  function LastWindow(window: int, now: int): (w: Stamp)
    ensures window != 0 <==> w.Seconds?
  {
    if window == 0 then NotANumber else Seconds(FloorDiv(now, window) * window)
  }

  /** For a positive length the last window is the multiple of it that
      starts at or just before now. */
  lemma LastWindowBounds(window: int, now: int)
    requires window > 0
    ensures LastWindow(window, now).Seconds?
    ensures var w := LastWindow(window, now).n;
      w % window == 0 && w <= now && now - w < window
  {
    var q := FloorDiv(now, window);
    assert (q * window) % window == 0 by {
      MultipleMod(q, window);
    }
  }

  /** With a negative length the window starts after now instead. */
  lemma NegativeWindowBounds(window: int, now: int)
    requires window < 0
    ensures LastWindow(window, now).Seconds?
    ensures var w := LastWindow(window, now).n;
      w % window == 0 && now <= w < now - window
  {
    var q := FloorDiv(now, window);
    assert (q * window) % window == 0 by {
      MultipleMod(q, window);
    }
  }

  lemma MultipleMod(q: int, b: int)
    requires b != 0
    ensures (q * b) % b == 0
  {
    var m := q * b;
    var q', r' := m / b, m % b;
    assert m == q' * b + r';
    assert (q - q') * b == r' by {
      MulDistributes(q, q', b);
    }
    if q > q' {
      MulMonotone(1, q - q', b);
    } else if q < q' {
      MulMonotone(1, q' - q, b);
      MulDistributes(q', q, b);
    }
  }

  /** Multiplying by a positive number keeps the order; by a negative one
      flips it. */
  lemma MulMonotone(a: int, c: int, b: int)
    requires a <= c
    ensures b > 0 ==> a * b <= c * b
    ensures b < 0 ==> a * b >= c * b
  {
    MulDistributes(c, a, b);
    assert (c - a) * b == c * b - a * b;
    if b > 0 {
      assert (c - a) * b >= 0;
    } else if b < 0 {
      assert (c - a) * b <= 0;
    }
  }

  lemma MulDistributes(a: int, c: int, b: int)
    ensures (a - c) * b == a * b - c * b
  {
  }

  /** The window i lengths before the last one. */
  function Earlier(last: Stamp, window: int, i: int): (w: Stamp)
    ensures last.Seconds? <==> w.Seconds?
    ensures last.Seconds? ==> w.n == last.n - window * i
  {
    if last.NotANumber? then NotANumber else Seconds(last.n - window * i)
  }

  // ---------------------------------------------------------------------------
  // Keys

  /** The hash the configured type names; None for any other type,
      CBC included, for which the source throws. */
  function Hash(p: Primitives, encryptionType: string, input: string): (h: Option<string>)
    ensures h.Some? <==> encryptionType == "SHA1" || encryptionType == "MD5"
    ensures encryptionType == "SHA1" ==> h == Some(p.sha1(input))
    ensures encryptionType == "MD5" ==> h == Some(p.md5(input))
  {
    if encryptionType == "SHA1" then Some(p.sha1(input))
    else if encryptionType == "MD5" then Some(p.md5(input))
    else None
  }

  /** The text hashed for a window: salt, window and caller data, in that
      order. */
  function Message(p: Primitives, t: TimedKey, w: Stamp, extradata: string): string
  {
    t.salt + p.show(w) + extradata
  }

  /** generateKey(extradata) at time now. */
  function GenerateKey(p: Primitives, t: TimedKey, now: int, extradata: string := ""): (r: Result<string>)
    ensures r.Failure? <==> Hash(p, t.config.encryptionType, "").None?
    ensures r.Failure? ==> r.error == UnknownEncryptionType(t.config.encryptionType)
    ensures r.Success? ==>
      var h := Hash(p, t.config.encryptionType, Message(p, t, LastWindow(t.config.window, now), extradata)).value;
      r.value == if t.config.base64 then p.encode(h) else h
  {
    var h := Hash(p, t.config.encryptionType, Message(p, t, LastWindow(t.config.window, now), extradata));
    if h.None? then Failure(UnknownEncryptionType(t.config.encryptionType))
    else if t.config.base64 then Success(p.encode(h.value))
    else Success(h.value)
  }

  /** The key as validateKey compares it: decoded first when keys are
      base64 encoded. */
  function Received(p: Primitives, t: TimedKey, key: string): string
  {
    if t.config.base64 then p.decode(key) else key
  }

  /** The loop of validateKey from window i on: each window's key is
      computed and compared in turn, and the first comparison that holds
      ends the loop with true. */
  function Scan(p: Primitives, t: TimedKey, key: string, extradata: string, last: Stamp, windowcount: int, i: nat): Result<bool>
    decreases windowcount - i
  {
    if i >= windowcount then Success(false)
    else
      var h := Hash(p, t.config.encryptionType, Message(p, t, Earlier(last, t.config.window, i), extradata));
      if h.None? then Failure(UnknownEncryptionType(t.config.encryptionType))
      else if p.equals(h.value, key) then Success(true)
      else Scan(p, t, key, extradata, last, windowcount, i + 1)
  }

  /** validateKey(key, extradata, windowcount) at time now. */
  function Validate(p: Primitives, t: TimedKey, now: int, key: string, extradata: string := "", windowcount: int := 3): Result<bool>
  {
    Scan(p, t, Received(p, t, key), extradata, LastWindow(t.config.window, now), windowcount, 0)
  }

  /** The same as a loop that returns early. */
  method ValidateKey(p: Primitives, t: TimedKey, now: int, key: string, extradata: string := "", windowcount: int := 3)
    returns (r: Result<bool>)
    ensures r == Validate(p, t, now, key, extradata, windowcount)
  {
    var received := if t.config.base64 then p.decode(key) else key;
    var last := LastWindow(t.config.window, now);
    var i: nat := 0;
    while i < windowcount
      invariant Scan(p, t, received, extradata, last, windowcount, i) == Validate(p, t, now, key, extradata, windowcount)
      decreases windowcount - i
    {
      var window := Earlier(last, t.config.window, i);
      var input := t.salt + p.show(window) + extradata;
      var testkey: string;
      if t.config.encryptionType == "SHA1" {
        testkey := p.sha1(input);
      } else if t.config.encryptionType == "MD5" {
        testkey := p.md5(input);
      } else {
        return Failure(UnknownEncryptionType(t.config.encryptionType));
      }
      if p.equals(testkey, received) {
        return Success(true);
      }
      i := i + 1;
    }
    r := Success(false);
  }

  // ---------------------------------------------------------------------------
  // Properties

  /** The keys of the windows checked, as generateKey would have made them. */
  function TestKey(p: Primitives, t: TimedKey, now: int, extradata: string, i: int): string
    requires Hash(p, t.config.encryptionType, "").Some?
  {
    Hash(p, t.config.encryptionType, Message(p, t, Earlier(LastWindow(t.config.window, now), t.config.window, i), extradata)).value
  }

  /** With no window to check the key is refused, whatever the type. */
  lemma NoWindowsRefuses(p: Primitives, t: TimedKey, now: int, key: string, extradata: string, windowcount: int)
    requires windowcount <= 0
    ensures Validate(p, t, now, key, extradata, windowcount) == Success(false)
  {
  }

  /** An unknown type fails as soon as one window is to be checked. */
  lemma UnknownTypeFails(p: Primitives, t: TimedKey, now: int, key: string, extradata: string, windowcount: int)
    requires Hash(p, t.config.encryptionType, "").None?
    requires windowcount >= 1
    ensures Validate(p, t, now, key, extradata, windowcount) == Failure(UnknownEncryptionType(t.config.encryptionType))
  {
  }

  /** With a known type the key is accepted exactly when one of the first
      windowcount windows gives a key equal to it. */
  lemma ValidateMeansSomeWindow(p: Primitives, t: TimedKey, now: int, key: string, extradata: string, windowcount: int)
    requires Hash(p, t.config.encryptionType, "").Some?
    ensures Validate(p, t, now, key, extradata, windowcount).Success?
    ensures Validate(p, t, now, key, extradata, windowcount).value
        <==> exists i :: 0 <= i < windowcount && p.equals(TestKey(p, t, now, extradata, i), Received(p, t, key))
  {
    ScanMeansSomeWindow(p, t, now, Received(p, t, key), extradata, windowcount, 0);
  }

  lemma {:induction false} ScanMeansSomeWindow(p: Primitives, t: TimedKey, now: int, received: string, extradata: string, windowcount: int, i: nat)
    requires Hash(p, t.config.encryptionType, "").Some?
    ensures var r := Scan(p, t, received, extradata, LastWindow(t.config.window, now), windowcount, i);
      r.Success? && (r.value <==> exists j :: i <= j < windowcount && p.equals(TestKey(p, t, now, extradata, j), received))
    decreases windowcount - i
  {
    if i < windowcount {
      ScanMeansSomeWindow(p, t, now, received, extradata, windowcount, i + 1);
      var r := Scan(p, t, received, extradata, LastWindow(t.config.window, now), windowcount, i);
      if !p.equals(TestKey(p, t, now, extradata, i), received) {
        if r.value {
          var j :| i + 1 <= j < windowcount && p.equals(TestKey(p, t, now, extradata, j), received);
        } else {
          forall j | i <= j < windowcount
            ensures !p.equals(TestKey(p, t, now, extradata, j), received)
          {
            if j > i {
              assert !(i + 1 <= j < windowcount && p.equals(TestKey(p, t, now, extradata, j), received));
            }
          }
        }
      }
    }
  }

  /** A key made by generateKey in any of the windowcount windows checked
      is accepted with the same extra data, provided decoding undoes
      encoding and the comparison is reflexive. */
  lemma EarlierKeyAccepted(p: Primitives, t: TimedKey, created: int, now: int, extradata: string, windowcount: int, i: int)
    requires GenerateKey(p, t, created, extradata).Success?
    requires 0 <= i < windowcount
    requires LastWindow(t.config.window, created) == Earlier(LastWindow(t.config.window, now), t.config.window, i)
    requires t.config.base64 ==> p.decode(GenerateKey(p, t, created, extradata).value) == TestKey(p, t, now, extradata, i)
    requires forall s :: p.equals(s, s)
    ensures Validate(p, t, now, GenerateKey(p, t, created, extradata).value, extradata, windowcount) == Success(true)
  {
    var key := GenerateKey(p, t, created, extradata).value;
    assert Received(p, t, key) == TestKey(p, t, now, extradata, i);
    ValidateMeansSomeWindow(p, t, now, key, extradata, windowcount);
  }

  /** In particular a key is accepted at any time of the window it was made
      in, once a window is checked. */
  lemma RoundTrip(p: Primitives, t: TimedKey, created: int, now: int, extradata: string, windowcount: int)
    requires GenerateKey(p, t, created, extradata).Success?
    requires LastWindow(t.config.window, created) == LastWindow(t.config.window, now)
    requires windowcount >= 1
    requires t.config.base64 ==> forall s :: p.decode(p.encode(s)) == s
    requires forall s :: p.equals(s, s)
    ensures Validate(p, t, now, GenerateKey(p, t, created, extradata).value, extradata, windowcount) == Success(true)
  {
    var last := LastWindow(t.config.window, now);
    assert Earlier(last, t.config.window, 0) == last;
    EarlierKeyAccepted(p, t, created, now, extradata, windowcount, 0);
  }

  /** For a positive length, the times whose window is the one i lengths
      before the last: they run from W * i to W * (i - 1) seconds before
      the start of the last window plus one length. */
  lemma EarlierWindowTimes(window: int, now: int, created: int, i: int)
    requires window > 0
    requires LastWindow(window, now).n - window * i <= created < LastWindow(window, now).n - window * i + window
    ensures LastWindow(window, created) == Earlier(LastWindow(window, now), window, i)
  {
    var q, q' := FloorDiv(now, window), FloorDiv(created, window);
    var c := q - i;
    assert c * window == q * window - i * window by {
      MulDistributes(q, i, window);
    }
    assert c * window <= created < c * window + window;
    assert q' * window <= created < q' * window + window;
    if q' < c {
      MulMonotone(q' + 1, c, window);
      MulDistributes(q' + 1, 1, window);
    } else if q' > c {
      MulMonotone(c + 1, q', window);
      MulDistributes(c + 1, 1, window);
    }
  }

  /** The class's promise for its defaults (SHA1, unencoded, windows of an
      hour, three windows checked): a key is still accepted for less than
      two hours after it was made ... */
  lemma ValidForTwoHours(p: Primitives, salt: string, created: int, now: int, extradata: string)
    requires created <= now < created + 2 * 3600
    requires forall s :: p.equals(s, s)
    ensures var t := Create(DefaultConfig(salt));
      && GenerateKey(p, t, created, extradata).Success?
      && Validate(p, t, now, GenerateKey(p, t, created, extradata).value, extradata) == Success(true)
  {
    var t := Create(DefaultConfig(salt));
    LastWindowBounds(3600, now);
    var last := LastWindow(3600, now).n;
    var i := if created >= last then 0 else if created >= last - 3600 then 1 else 2;
    EarlierWindowTimes(3600, now, created, i);
    EarlierKeyAccepted(p, t, created, now, extradata, 3, i);
  }

  /** ... and refused from three hours on, when the hash, the conversion of
      windows to text and the comparison tell different inputs apart. */
  lemma ExpiresWithinThreeHours(p: Primitives, salt: string, created: int, now: int, extradata: string)
    requires now >= created + 3 * 3600
    requires forall a, b :: p.equals(a, b) <==> a == b
    requires forall x, y :: p.sha1(x) == p.sha1(y) ==> x == y
    requires forall v, w :: p.show(v) == p.show(w) ==> v == w
    ensures var t := Create(DefaultConfig(salt));
      Validate(p, t, now, GenerateKey(p, t, created, extradata).value, extradata) == Success(false)
  {
    var t := Create(DefaultConfig(salt));
    var key := GenerateKey(p, t, created, extradata).value;
    ValidateMeansSomeWindow(p, t, now, key, extradata, 3);
    if Validate(p, t, now, key, extradata).value {
      var i :| 0 <= i < 3 && p.equals(TestKey(p, t, now, extradata, i), Received(p, t, key));
      var w := Earlier(LastWindow(3600, now), 3600, i);
      assert p.sha1(Message(p, t, w, extradata)) == p.sha1(Message(p, t, LastWindow(3600, created), extradata));
      MessageCancels(p, t, w, LastWindow(3600, created), extradata);
      LastWindowBounds(3600, now);
      LastWindowBounds(3600, created);
      assert false;
    }
  }

  /** Two messages with the same salt and extra data are equal only when
      their windows are written the same way. */
  lemma MessageCancels(p: Primitives, t: TimedKey, v: Stamp, w: Stamp, extradata: string)
    requires Message(p, t, v, extradata) == Message(p, t, w, extradata)
    ensures p.show(v) == p.show(w)
  {
    var m, a := Message(p, t, v, extradata), |t.salt|;
    assert |p.show(v)| == |p.show(w)|;
    assert p.show(v) == m[a..a + |p.show(v)|];
    assert p.show(w) == m[a..a + |p.show(w)|];
  }
}
