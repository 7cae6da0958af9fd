/** The framing of cached responses: base64 of the response, a bar, and the expiry timestamp. */
module CachePayload {
  import opened Wrappers
  import opened Base64
  import opened Sequences
  import Decimals

  const BAR: Byte := 124

  function EncodePayload(payload: Bytes, timestamp: Bytes): Bytes {
    Encode(payload) + [BAR] + timestamp
  }

  /** A value without a bar is taken as a payload without a timestamp. */
  function DecodePayload(stored: Bytes): Option<(Bytes, Bytes)> {
    var data := Split(stored, BAR);
    if |data| == 1 then Some((data[0], []))
    else if |data| == 2 then
      var d := Decode(data[0]);
      if d.None? then None else Some((d.value, data[1]))
    else None
  }

  lemma EncodingHasNoBar(payload: Bytes)
    ensures BAR !in Encode(payload)
  {
    EncodeAlphabet(payload);
  }

  /** What was stored comes back exactly when the timestamp holds no bar; otherwise decoding fails. */
  lemma PayloadRoundTrip(payload: Bytes, timestamp: Bytes)
    ensures BAR !in timestamp ==> DecodePayload(EncodePayload(payload, timestamp)) == Some((payload, timestamp))
    ensures BAR in timestamp ==> DecodePayload(EncodePayload(payload, timestamp)) == None
  {
    EncodingHasNoBar(payload);
    SplitFirst(Encode(payload), BAR, timestamp);
    SplitOne(timestamp, BAR);
    RoundTrip(payload);
    var parts := Split(EncodePayload(payload, timestamp), BAR);
    assert parts == [Encode(payload)] + Split(timestamp, BAR);
  }

  function Ascii(s: string): (b: Bytes)
    requires forall i :: 0 <= i < |s| ==> s[i] < 128 as char
    ensures |b| == |s|
  {
    seq(|s|, i requires 0 <= i < |s| => s[i] as int)
  }

  /** A number in decimal, with a sign if it is negative. */
  function Printed(n: int): (s: string)
    ensures forall i :: 0 <= i < |s| ==> Decimals.IsDigit(s[i]) || s[i] == '-'
  {
    if n < 0 then "-" + Decimals.Itoa(-n) else Decimals.Itoa(n)
  }

  /** The expiry of an entry: the current time and its lifetime, in seconds, printed in decimal. */
  function TimeTTL(now: int, ttl: int): Bytes { Ascii(Printed(now + ttl)) }

  /** Every value is read in one of three ways: as it is without a bar, as base64 and a timestamp with one, and not at
      all with more. */
  lemma PayloadReadings(a: Bytes, b: Bytes)
    requires 124 !in a
    ensures DecodePayload(a) == Some((a, []))
    ensures DecodePayload(a + [124] + b) ==
      if 124 in b || Decode(a).None? then None else Some((Decode(a).value, b))
    ensures EncodePayload(a, b) == Encode(a) + [124] + b
  {
    SplitOne(a, BAR);
    SplitFirst(a, BAR, b);
    SplitOne(b, BAR);
  }

  /** Reading a printed number. */
  function ParseInt(b: Bytes): Option<int> {
    if b == [] then None
    else if b[0] == 45 then
      if |b| == 1 || ParseDigits(b[1..]).None? then None else Some(-ParseDigits(b[1..]).value)
    else ParseDigits(b)
  }

  function ParseDigits(b: Bytes): Option<int> {
    if b == [] then Some(0)
    else
      var n := |b| - 1;
      var front := ParseDigits(b[..n]);
      if front.None? || !(48 <= b[n] <= 57) then None else Some(10 * front.value + (b[n] - 48))
  }

  lemma {:induction false} DigitsRead(s: string)
    requires Decimals.AllDigits(s)
    ensures ParseDigits(Ascii(s)) == Some(Decimals.ParseNat(s))
  {
    if s != "" {
      var n := |s| - 1;
      DigitsRead(s[..n]);
      assert Ascii(s)[..n] == Ascii(s[..n]);
    }
  }

  lemma NumberRead(n: nat)
    ensures ParseInt(Ascii(Decimals.Itoa(n))) == Some(n) && ParseDigits(Ascii(Decimals.Itoa(n))) == Some(n)
  {
    var digits := Decimals.Itoa(n);
    DigitsRead(digits);
    Decimals.ParseItoa(n);
    assert Ascii(digits)[0] == digits[0] as int && Decimals.IsDigit(digits[0]);
  }

  lemma NegativeRead(n: int)
    requires n >= 0
    ensures ParseInt(Ascii("-" + Decimals.Itoa(n))) == Some(-n)
  {
    var digits := Decimals.Itoa(n);
    NumberRead(n);
    var b := Ascii("-" + digits);
    assert b[1..] == Ascii(digits) && b[0] == 45 && |b| > 1;
  }

  /** The timestamp of an entry reads back as the time it expires. */
  lemma ExpiryRead(now: int, ttl: int)
    ensures ParseInt(TimeTTL(now, ttl)) == Some(now + ttl)
    ensures now + ttl >= 0 ==> forall i :: 0 <= i < |TimeTTL(now, ttl)| ==> 48 <= TimeTTL(now, ttl)[i] <= 57
  {
    assert now + ttl >= 0 ==> Decimals.AllDigits(Printed(now + ttl));
    if now + ttl < 0 {
      NegativeRead(-(now + ttl));
    } else {
      NumberRead(now + ttl);
    }
  }

  /** An unreadable timestamp counts as the start of the epoch. */
  predicate IsTimeStampExpired(timestamp: Bytes, now: real) {
    (if ParseInt(timestamp).Some? then ParseInt(timestamp).value else 0) as real < now
  }

  /** An entry is served for exactly its lifetime; one without a readable timestamp never is, after the epoch. */
  lemma EntryLives(payload: Bytes, stored: int, ttl: int, now: real)
    ensures forall ts: Bytes :: ParseInt(ts).None? ==> (IsTimeStampExpired(ts, now) <==> now > 0.0)
    ensures var entry := DecodePayload(EncodePayload(payload, TimeTTL(stored, ttl)));
      entry.Some? && (IsTimeStampExpired(entry.value.1, now) <==> now > (stored + ttl) as real)
  {
    StoredEntryReadable(payload, stored, ttl);
  }

  /** Every entry that the cache middleware writes can be read back, payload and expiry. */
  lemma StoredEntryReadable(payload: Bytes, now: int, ttl: int)
    ensures var stored := DecodePayload(EncodePayload(payload, TimeTTL(now, ttl)));
      stored.Some? && stored.value.0 == payload && ParseInt(stored.value.1) == Some(now + ttl)
  {
    var s := Printed(now + ttl);
    forall i | 0 <= i < |s|
      ensures TimeTTL(now, ttl)[i] != BAR
    {
      assert Decimals.IsDigit(s[i]) || s[i] == '-';
    }
    PayloadRoundTrip(payload, TimeTTL(now, ttl));
    ExpiryRead(now, ttl);
  }
}
