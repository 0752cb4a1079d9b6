// The password codec of pytboss/codec.py: a key derived from the device's
// uptime, and a keyed XOR stream whose key array changes after every byte.
module Codec {

  type Byte = b: int | 0 <= b < 256

  /** Bitwise exclusive or of two non-negative integers (Python's `^`). */
  function Xor(a: nat, b: nat): nat
    decreases a + b
  {
    if a == 0 then b
    else if b == 0 then a
    else 2 * Xor(a / 2, b / 2) + (if a % 2 == b % 2 then 0 else 1)
  }

  function Pow2(k: nat): (p: nat)
    ensures p >= 1
  {
    if k == 0 then 1 else 2 * Pow2(k - 1)
  }

  /** XOR of two k-bit numbers is a k-bit number. */
  lemma {:induction false} XorBound(a: nat, b: nat, k: nat)
    requires a < Pow2(k) && b < Pow2(k)
    ensures Xor(a, b) < Pow2(k)
    decreases a + b
  {
    if a != 0 && b != 0 {
      assert k > 0;
      XorBound(a / 2, b / 2, k - 1);
    }
  }

  /** x ^ x == 0 */
  lemma {:induction false} XorSelf(a: nat)
    ensures Xor(a, a) == 0
    decreases a
  {
    if a != 0 {
      XorSelf(a / 2);
    }
  }

  /** (a ^ b) ^ b == a */
  lemma {:induction false} XorCancel(a: nat, b: nat)
    ensures Xor(Xor(a, b), b) == a
    decreases a + b
  {
    if a == 0 {
      XorSelf(b);
    } else if b != 0 {
      XorCancel(a / 2, b / 2);
      var c := Xor(a, b);
      assert c / 2 == Xor(a / 2, b / 2) && c % 2 == (if a % 2 == b % 2 then 0 else 1);
      if c == 0 {
        assert Xor(a / 2, b / 2) == 0 && a % 2 == b % 2;
        assert b / 2 == a / 2;
      }
    }
  }

  lemma Pow2Eight()
    ensures Pow2(8) == 256
  {
    assert Pow2(2) == 4 && Pow2(4) == 16 by {
      assert Pow2(1) == 2;
      assert Pow2(3) == 8;
    }
    assert Pow2(6) == 64 by { assert Pow2(5) == 32; }
    assert Pow2(7) == 128;
  }

  /** Bytes XOR to a byte. */
  lemma XorOfBytes(a: Byte, k: Byte)
    ensures Xor(a, k) < 256
  {
    Pow2Eight();
    XorBound(a, k, 8);
  }

  /** XORing a byte twice with k restores it. */
  lemma XorByte(a: Byte, k: Byte)
    ensures Xor(a, k) < 256
    ensures Out(Out(a, k), k) == a
  {
    XorOfBytes(a, k);
    XorCancel(a, k);
    var x := Xor(a, k);
    LowByte(x);
    LowByte(Xor(x, k));
  }

  lemma LowByte(x: nat)
    requires x < 256
    ensures x % 256 == x
  {
  }

  /** The base key that `timed_key` permutes and `encode`/`decode` default to. */
  const KEY: seq<Byte> := [0x8F, 0x80, 0x19, 0xCF, 0x77, 0x6C, 0xFE, 0xB7]

  /** Number of random bytes `encode` puts in front of the marker. */
  const PADDING_LEN: nat := 16

  /** The byte that separates the padding from the payload. */
  const MARKER: Byte := 0xFF

  // ---------------------------------------------------------------------
  // timed_key
  // ---------------------------------------------------------------------

  /** The 10-second bucket of an uptime: floor(max(uptime - 5, 0) / 10). */
  function Bucket(uptime: real): nat {
    var shifted := if uptime - 5.0 > 0.0 then uptime - 5.0 else 0.0;
    (shifted / 10.0).Floor
  }

  /** The bucket is the number of whole 10-second windows in the uptime
      past its first 5 seconds; any uptime up to 5 is in bucket 0. */
  lemma BucketBounds(uptime: real)
    ensures uptime <= 5.0 ==> Bucket(uptime) == 0
    ensures 10.0 * (Bucket(uptime) as real) <= (if uptime > 5.0 then uptime - 5.0 else 0.0)
    ensures (if uptime > 5.0 then uptime - 5.0 else 0.0) < 10.0 * (Bucket(uptime) as real) + 10.0
  {
  }

  /** Every uptime in [5 + 10n, 15 + 10n) falls in bucket n (and bucket 0
      also holds every uptime below 15). */
  lemma BucketWindow(uptime: real, n: nat)
    ensures Bucket(uptime) == n <==>
      (if n == 0 then uptime < 15.0
       else 5.0 + 10.0 * (n as real) <= uptime < 15.0 + 10.0 * (n as real))
  {
    BucketBounds(uptime);
    var b := Bucket(uptime);
    if b == n {
    } else if n == 0 {
      assert b >= 1;
    } else if b < n {
      assert (b as real) + 1.0 <= n as real;
    } else {
      assert (n as real) + 1.0 <= b as real;
    }
  }

  /** The key that the loop of `timed_key` builds from the working copy
      `key` and the running value `n`. */
  function TimedKeyFrom(n: nat, key: seq<Byte>): (r: seq<Byte>)
    requires |key| >= 1
    ensures |r| == |key|
    decreases |key|
  {
    if |key| == 1 then [key[0]]
    else
      var idx := n % |key|;
      var v := key[idx];
      [Whiten(v, n)] + TimedKeyFrom(NextN(n, v), key[..idx] + key[idx + 1..])
  }

  /** A popped entry as it enters the key: (v ^ n) & 0xFF. */
  function Whiten(v: Byte, n: nat): Byte {
    Xor(v, n) % 256
  }

  /** n = (n * v + v) & 0xFF */
  function NextN(n: nat, v: Byte): nat {
    (n * v + v) % 256
  }

  /** The entries of the working copy in the order `timed_key` pops them. */
  function Popped(n: nat, key: seq<Byte>): seq<Byte>
    requires |key| >= 1
    decreases |key|
  {
    if |key| == 1 then []
    else
      var idx := n % |key|;
      [key[idx]] + Popped(NextN(n, key[idx]), key[..idx] + key[idx + 1..])
  }

  /** The one entry that is never popped. */
  function Remaining(n: nat, key: seq<Byte>): Byte
    requires |key| >= 1
    decreases |key|
  {
    if |key| == 1 then key[0]
    else
      var idx := n % |key|;
      Remaining(NextN(n, key[idx]), key[..idx] + key[idx + 1..])
  }

  /** The last byte of the key is the entry that was never popped, as is:
      it is not XORed with the running value. */
  lemma {:induction false} TimedKeyLast(n: nat, key: seq<Byte>)
    requires |key| >= 1
    ensures TimedKeyFrom(n, key)[|key| - 1] == Remaining(n, key)
    decreases |key|
  {
    if |key| > 1 {
      var idx := n % |key|;
      TimedKeyLast(NextN(n, key[idx]), key[..idx] + key[idx + 1..]);
    }
  }

  /** The popped entries and the remaining one are exactly the base key
      rearranged: nothing is lost or duplicated. */
  lemma {:induction false} PoppedAndRemaining(n: nat, key: seq<Byte>)
    requires |key| >= 1
    ensures |Popped(n, key)| == |key| - 1
    ensures multiset(Popped(n, key)) + multiset{Remaining(n, key)} == multiset(key)
    decreases |key|
  {
    if |key| > 1 {
      var idx := n % |key|;
      var rest := key[..idx] + key[idx + 1..];
      var n' := NextN(n, key[idx]);
      PoppedAndRemaining(n', rest);
      assert Popped(n, key) == [key[idx]] + Popped(n', rest);
      assert Remaining(n, key) == Remaining(n', rest);
      assert key == key[..idx] + ([key[idx]] + key[idx + 1..]);
      assert multiset(key) == multiset(key[..idx]) + (multiset{key[idx]} + multiset(key[idx + 1..]));
      assert multiset(rest) == multiset(key[..idx]) + multiset(key[idx + 1..]);
      calc {
        multiset(Popped(n, key)) + multiset{Remaining(n, key)};
        multiset{key[idx]} + (multiset(Popped(n', rest)) + multiset{Remaining(n', rest)});
        multiset{key[idx]} + multiset(rest);
        multiset(key);
      }
    } else {
      assert key == [key[0]];
    }
  }

  /** The running value `n` holds at each pop: the starting value, then
      (n * v + v) & 0xFF after each popped entry v. */
  function Running(n: nat, key: seq<Byte>): (r: seq<nat>)
    requires |key| >= 1
    ensures |r| == |key| - 1
    decreases |key|
  {
    if |key| == 1 then []
    else
      var idx := n % |key|;
      [n] + Running(NextN(n, key[idx]), key[..idx] + key[idx + 1..])
  }

  /** Output byte j < |key| - 1 is the j-th popped entry whitened by the
      j-th running value; the running values start at n and each is the
      update of the one before by the entry popped there. */
  lemma {:induction false} TimedKeyIsPoppedXor(n: nat, key: seq<Byte>, j: nat)
    requires |key| >= 1 && j < |key| - 1
    ensures |Popped(n, key)| == |key| - 1
    ensures TimedKeyFrom(n, key)[j] == Whiten(Popped(n, key)[j], Running(n, key)[j])
    ensures Running(n, key)[0] == n
    ensures j + 1 < |key| - 1 ==> Running(n, key)[j + 1] == NextN(Running(n, key)[j], Popped(n, key)[j])
    decreases |key|
  {
    PoppedAndRemaining(n, key);
    var idx := n % |key|;
    var rest := key[..idx] + key[idx + 1..];
    var n' := NextN(n, key[idx]);
    PoppedAndRemaining(n', rest);
    if j == 0 {
      assert TimedKeyFrom(n, key)[0] == Whiten(Popped(n, key)[0], n);
      if 1 < |key| - 1 {
        TimedKeyIsPoppedXor(n', rest, 0);
      }
    } else {
      TimedKeyIsPoppedXor(n', rest, j - 1);
      assert TimedKeyFrom(n, key)[j] == TimedKeyFrom(n', rest)[j - 1];
      assert Popped(n, key)[j] == Popped(n', rest)[j - 1];
      assert Running(n, key)[j] == Running(n', rest)[j - 1];
    }
  }

  /** With distinct entries, the last byte of the key is the one entry
      that no popped entry equals. */
  lemma LastNeverPopped(n: nat, key: seq<Byte>)
    requires |key| >= 1
    requires forall a, b :: 0 <= a < b < |key| ==> key[a] != key[b]
    ensures TimedKeyFrom(n, key)[|key| - 1] in key
    ensures TimedKeyFrom(n, key)[|key| - 1] !in Popped(n, key)
  {
    PoppedAndRemaining(n, key);
    TimedKeyLast(n, key);
    var last := Remaining(n, key);
    DistinctCount(key, last);
    assert last in multiset(key);
    assert multiset(Popped(n, key))[last] == 0;
  }

  /** No two entries of the base key are equal. */
  lemma KeyDistinct()
    ensures forall a, b :: 0 <= a < b < |KEY| ==> KEY[a] != KEY[b]
  {
    var k := KEY;
    assert k == [143, 128, 25, 207, 119, 108, 254, 183];
  }

  /** In a sequence of distinct entries each value occurs at most once. */
  lemma {:induction false} DistinctCount(s: seq<Byte>, x: Byte)
    requires forall a, b :: 0 <= a < b < |s| ==> s[a] != s[b]
    ensures multiset(s)[x] <= 1
  {
    if s != [] {
      DistinctCount(s[1..], x);
      assert s == [s[0]] + s[1..];
      if s[0] == x {
        assert x !in s[1..];
      }
    }
  }

  /** One iteration of the loop of `timed_key`: pop entry idx, emit it
      whitened, and advance the running value. */
  lemma TimedKeyStep(n: nat, key: seq<Byte>, idx: nat, rest: seq<Byte>)
    requires |key| > 1 && idx == n % |key| && rest == key[..idx] + key[idx + 1..]
    ensures TimedKeyFrom(n, key) == [Whiten(key[idx], n)] + TimedKeyFrom(NextN(n, key[idx]), rest)
  {
  }

  /** The loop of getCodecKey() over a working copy of `base`: pop entries
      until one is left, XORing each with the running value. */
  method PopKey(n0: nat, base: seq<Byte>) returns (ret: seq<Byte>)
    requires |base| >= 1
    ensures ret == TimedKeyFrom(n0, base)
  {
    ret := [];
    var n: nat := n0;
    var key := base;
    ghost var target := TimedKeyFrom(n, key);
    while |key| > 1
      invariant |key| >= 1
      invariant ret + TimedKeyFrom(n, key) == target
      decreases |key|
    {
      var idx := n % |key|;
      var v := key[idx];
      ghost var rest, w, n' := key[..idx] + key[idx + 1..], Whiten(v, n), NextN(n, v);
      TimedKeyStep(n, key, idx, rest);
      assert ret + TimedKeyFrom(n, key) == (ret + [w]) + TimedKeyFrom(n', rest);
      key := key[..idx] + key[idx + 1..];
      ret := ret + [Whiten(v, n)];
      n := NextN(n, v);
    }
    ret := ret + [key[0]];
  }

  /** Port of getCodecKey(): the key for an uptime, from KEY. */
  method TimedKey(uptime: real) returns (ret: seq<Byte>)
    ensures ret == TimedKeyFrom(Bucket(uptime), KEY)
  {
    ret := PopKey(Bucket(uptime), KEY);
  }

  /** Two uptimes in the same 10-second bucket yield the same key. */
  lemma SameBucketSameKey(u1: real, u2: real, n: nat)
    requires 5.0 + 10.0 * (n as real) <= u1 < 15.0 + 10.0 * (n as real)
    requires 5.0 + 10.0 * (n as real) <= u2 < 15.0 + 10.0 * (n as real)
    ensures TimedKeyFrom(Bucket(u1), KEY) == TimedKeyFrom(Bucket(u2), KEY)
  {
    BucketWindow(u1, n);
    BucketWindow(u2, n);
  }

  // ---------------------------------------------------------------------
  // encode / decode
  // ---------------------------------------------------------------------

  /** The output byte for input byte b under key byte k: (b ^ k) & 0xFF. */
  function Out(b: Byte, k: Byte): Byte {
    Xor(b, k) % 256
  }

  /** The new key byte: ((kb ^ fed) + i) & 0xFF. */
  function Mix(kb: Byte, fed: Byte, i: nat): Byte {
    (Xor(kb, fed) + i) % 256
  }

  /** key[(i+1) % L] := ((key[(i+1) % L] ^ fed) + i) & 0xFF */
  function Schedule(key: seq<Byte>, i: nat, fed: Byte): (k: seq<Byte>)
    requires |key| > 0
    ensures |k| == |key|
  {
    var j := (i + 1) % |key|;
    key[j := Mix(key[j], fed, i)]
  }

  /** The encoding walk over `s` from buffer position `i`: each output byte
      is fed back into the key schedule. */
  function Encrypt(s: seq<Byte>, key: seq<Byte>, i: nat): (r: seq<Byte>)
    requires s == [] || |key| > 0
    ensures |r| == |s|
    decreases |s|
  {
    if s == [] then []
    else
      var m := Out(s[0], key[i % |key|]);
      [m] + Encrypt(s[1..], Schedule(key, i, m), i + 1)
  }

  /** The decoding walk: each input byte is fed back into the key schedule. */
  function Decrypt(s: seq<Byte>, key: seq<Byte>, i: nat): (r: seq<Byte>)
    requires s == [] || |key| > 0
    ensures |r| == |s|
    decreases |s|
  {
    if s == [] then []
    else
      var m := Out(s[0], key[i % |key|]);
      [m] + Decrypt(s[1..], Schedule(key, i, s[0]), i + 1)
  }

  /** Both walks feed the ciphertext byte into the schedule, so decrypting
      replays the encryption's keys exactly. */
  lemma {:induction false} DecryptEncrypt(s: seq<Byte>, key: seq<Byte>, i: nat)
    requires |key| > 0
    ensures Decrypt(Encrypt(s, key, i), key, i) == s
    decreases |s|
  {
    if s != [] {
      var m := Out(s[0], key[i % |key|]);
      XorByte(s[0], key[i % |key|]);
      var c := Encrypt(s, key, i);
      assert c[0] == m && c[1..] == Encrypt(s[1..], Schedule(key, i, m), i + 1);
      DecryptEncrypt(s[1..], Schedule(key, i, m), i + 1);
    }
  }

  /** The converse: encrypting a decryption gives back the ciphertext. */
  lemma {:induction false} EncryptDecrypt(c: seq<Byte>, key: seq<Byte>, i: nat)
    requires |key| > 0
    ensures Encrypt(Decrypt(c, key, i), key, i) == c
    decreases |c|
  {
    if c != [] {
      var p := Decrypt(c, key, i);
      XorByte(c[0], key[i % |key|]);
      assert Out(p[0], key[i % |key|]) == c[0];
      assert p[1..] == Decrypt(c[1..], Schedule(key, i, c[0]), i + 1);
      EncryptDecrypt(c[1..], Schedule(key, i, c[0]), i + 1);
    }
  }

  /** Position of the first occurrence of `x` (Python's `list.index`). */
  function IndexOf(s: seq<Byte>, x: Byte): (k: nat)
    requires x in s
    ensures k < |s| && s[k] == x && x !in s[..k]
  {
    if s[0] == x then 0 else 1 + IndexOf(s[1..], x)
  }

  /** When x does not occur in p, the first x of p + [x] + d is at |p|. */
  lemma {:induction false} IndexOfAfter(p: seq<Byte>, x: Byte, d: seq<Byte>)
    requires x !in p
    ensures IndexOf(p + [x] + d, x) == |p|
  {
    if p != [] {
      assert (p + [x] + d)[1..] == p[1..] + [x] + d;
      IndexOfAfter(p[1..], x, d);
    }
  }

  /** Everything after the first marker, or the whole buffer when there is
      none (the `ValueError` of `index` is swallowed). */
  function StripMarker(s: seq<Byte>): (r: seq<Byte>)
    ensures MARKER !in s ==> r == s
    ensures MARKER in s ==> exists k :: 0 <= k < |s| && s[k] == MARKER && MARKER !in s[..k] && r == s[k + 1..]
  {
    if MARKER in s then s[IndexOf(s, MARKER) + 1..] else s
  }

  /** Padding as `encode` draws it: PADDING_LEN values in 0..254. */
  predicate ValidPadding(pad: seq<Byte>) {
    |pad| == PADDING_LEN && forall j :: 0 <= j < |pad| ==> pad[j] <= 254
  }

  function EncodeSpec(data: seq<Byte>, pad: seq<Byte>, key: seq<Byte>): (r: seq<Byte>)
    requires |key| > 0
  {
    Encrypt(pad + [MARKER] + data, key, 0)
  }

  function DecodeSpec(data: seq<Byte>, key: seq<Byte>): (r: seq<Byte>)
    requires data == [] || |key| > 0
  {
    StripMarker(Decrypt(data, key, 0))
  }

  /** Round trip: decoding an encoding with the same key gives the data. */
  lemma DecodeEncode(data: seq<Byte>, pad: seq<Byte>, key: seq<Byte>)
    requires ValidPadding(pad) && |key| > 0
    ensures |EncodeSpec(data, pad, key)| == PADDING_LEN + 1 + |data|
    ensures DecodeSpec(EncodeSpec(data, pad, key), key) == data
  {
    var buf := pad + [MARKER] + data;
    DecryptEncrypt(buf, key, 0);
    assert MARKER !in pad by {
      forall j | 0 <= j < |pad| ensures pad[j] != MARKER { }
    }
    IndexOfAfter(pad, MARKER, data);
    assert buf[|pad| + 1..] == data;
  }

  /** The check the firmware makes: a password encoded with the key of one
      uptime decodes with the key of any uptime in the same bucket (for
      instance 11.0 and 12.0). */
  lemma PasswordCheck(pw: seq<Byte>, pad: seq<Byte>, u1: real, u2: real)
    requires ValidPadding(pad) && Bucket(u1) == Bucket(u2)
    ensures DecodeSpec(EncodeSpec(pw, pad, TimedKeyFrom(Bucket(u1), KEY)), TimedKeyFrom(Bucket(u2), KEY)) == pw
  {
    DecodeEncode(pw, pad, TimedKeyFrom(Bucket(u1), KEY));
  }

  /** One iteration of the encoding loop: the walk over buf[i..] emits one
      byte and continues over buf[i+1..] with the scheduled key. */
  lemma EncryptStep(buf: seq<Byte>, key: seq<Byte>, i: nat, m: Byte)
    requires i < |buf| && |key| > 0 && m == Out(buf[i], key[i % |key|])
    ensures Encrypt(buf[i..], key, i) == [m] + Encrypt(buf[i + 1..], Schedule(key, i, m), i + 1)
  {
    assert buf[i..][0] == buf[i] && buf[i..][1..] == buf[i + 1..];
  }

  /** One iteration of the decoding loop. */
  lemma DecryptStep(buf: seq<Byte>, key: seq<Byte>, i: nat, m: Byte)
    requires i < |buf| && |key| > 0 && m == Out(buf[i], key[i % |key|])
    ensures Decrypt(buf[i..], key, i) == [m] + Decrypt(buf[i + 1..], Schedule(key, i, buf[i]), i + 1)
  {
    assert buf[i..][0] == buf[i] && buf[i..][1..] == buf[i + 1..];
  }

  /** The decoding loop's invariant survives one iteration. */
  lemma DecryptInvariant(data: seq<Byte>, key: seq<Byte>, ret: seq<Byte>, work: seq<Byte>, i: nat, m: Byte)
    requires i < |data| && |work| > 0 && m == Out(data[i], work[i % |work|])
    requires data == [] || |key| > 0
    requires ret + Decrypt(data[i..], work, i) == Decrypt(data, key, 0)
    ensures (ret + [m]) + Decrypt(data[i + 1..], Schedule(work, i, data[i]), i + 1) == Decrypt(data, key, 0)
  {
    DecryptStep(data, work, i, m);
    assert ret + ([m] + Decrypt(data[i + 1..], Schedule(work, i, data[i]), i + 1)) ==
      (ret + [m]) + Decrypt(data[i + 1..], Schedule(work, i, data[i]), i + 1);
  }

  /** The encoding loop's invariant survives one iteration. */
  lemma EncryptInvariant(buf: seq<Byte>, key: seq<Byte>, ret: seq<Byte>, work: seq<Byte>, i: nat, m: Byte)
    requires i < |buf| && |work| > 0 && |key| > 0 && m == Out(buf[i], work[i % |work|])
    requires ret + Encrypt(buf[i..], work, i) == Encrypt(buf, key, 0)
    ensures (ret + [m]) + Encrypt(buf[i + 1..], Schedule(work, i, m), i + 1) == Encrypt(buf, key, 0)
  {
    EncryptStep(buf, work, i, m);
    assert ret + ([m] + Encrypt(buf[i + 1..], Schedule(work, i, m), i + 1)) ==
      (ret + [m]) + Encrypt(buf[i + 1..], Schedule(work, i, m), i + 1);
  }

  /** Port of the encoding half of codec(): prepend the padding and the
      marker, then walk the buffer with a private copy of the key. */
  method Encode(data: seq<Byte>, pad: seq<Byte>, key: seq<Byte>) returns (out: seq<Byte>)
    requires ValidPadding(pad) && |key| > 0
    ensures out == EncodeSpec(data, pad, key)
    ensures |out| == PADDING_LEN + 1 + |data|
  {
    var buf := pad + [MARKER] + data;
    var work := new Byte[|key|](j requires 0 <= j < |key| => key[j]);
    var ret: seq<Byte> := [];
    assert work[..] == key && buf[0..] == buf;
    for i := 0 to |buf|
      invariant work.Length == |key|
      invariant ret + Encrypt(buf[i..], work[..], i) == Encrypt(buf, key, 0)
    {
      ghost var before := work[..];
      var k := work[i % work.Length];
      var m := Out(buf[i], k);
      EncryptInvariant(buf, key, ret, before, i, m);
      ret := ret + [m];
      var k2 := (i + 1) % work.Length;
      work[k2] := Mix(work[k2], m, i);
      assert work[..] == Schedule(before, i, m);
    }
    out := ret;
  }

  /** Port of the decoding half of codec(): walk the buffer with a private
      copy of the key, then drop everything up to the first marker. */
  method Decode(data: seq<Byte>, key: seq<Byte>) returns (out: seq<Byte>)
    requires data == [] || |key| > 0
    ensures out == DecodeSpec(data, key)
  {
    var work := new Byte[|key|](j requires 0 <= j < |key| => key[j]);
    var ret: seq<Byte> := [];
    assert work[..] == key && data[0..] == data;
    for i := 0 to |data|
      invariant work.Length == |key|
      invariant ret + Decrypt(data[i..], work[..], i) == Decrypt(data, key, 0)
    {
      ghost var before := work[..];
      var k := work[i % work.Length];
      var m := Out(data[i], k);
      DecryptInvariant(data, key, ret, before, i, m);
      ret := ret + [m];
      var k2 := (i + 1) % work.Length;
      work[k2] := Mix(work[k2], data[i], i);
      assert work[..] == Schedule(before, i, data[i]);
    }
    assert data[|data|..] == [];
    assert ret == Decrypt(data, key, 0);
    out := StripMarker(ret);
  }
}
