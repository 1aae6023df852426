/** Decimal sequence numbers, and the text keys of the two cache layers. */
module CacheKeys {
  import opened Values

  predicate IsDigit(c: char) {
    '0' <= c <= '9'
  }

  predicate AllDigits(s: string) {
    forall i :: 0 <= i < |s| ==> IsDigit(s[i])
  }

  /** What the controller lets through as `asOfSequence`: one digit or more. */
  predicate IsDecimal(s: string) {
    s != "" && AllDigits(s)
  }

  predicate ValidAsOf(asOf: Option<string>) {
    asOf.Some? ==> IsDecimal(asOf.value)
  }

  /** BigInt(s) on a decimal string. */
  function ToNat(s: string): nat
    requires AllDigits(s)
  {
    if s == "" then 0 else 10 * ToNat(s[..|s| - 1]) + (s[|s| - 1] as int - '0' as int)
  }

  /** n.toString(): reading it back gives n. */
  function ToString(n: nat): (s: string)
    ensures IsDecimal(s) && ToNat(s) == n
  {
    var digit := ('0' as int + n % 10) as char;
    if n < 10 then [digit]
    else
      var high := ToString(n / 10);
      assert (high + [digit])[..|high|] == high;
      high + [digit]
  }

  datatype Layer = StateLayer | LookupLayer

  /** What a cache key stands for: a layer, an aggregate, and a sequence number or latest. */
  datatype Address = Address(layer: Layer, aggregateId: string, asOf: Option<string>)

  const STATE_PREFIX := "aggregate-state:"
  const LOOKUP_PREFIX := "snapshot-lookup:"

  function SequencePart(asOf: Option<string>): string {
    if asOf.Some? then "seq:" + asOf.value else "latest"
  }

  function StateKey(aggregateId: string, asOf: Option<string>): string {
    STATE_PREFIX + aggregateId + ":" + SequencePart(asOf)
  }

  function LookupKey(aggregateId: string, asOf: Option<string>): string {
    LOOKUP_PREFIX + aggregateId + ":" + SequencePart(asOf)
  }

  function LatestStateKey(aggregateId: string): string {
    StateKey(aggregateId, None)
  }

  function LatestLookupKey(aggregateId: string): string {
    LookupKey(aggregateId, None)
  }

  function Encode(a: Address): string {
    if a.layer == StateLayer then StateKey(a.aggregateId, a.asOf) else LookupKey(a.aggregateId, a.asOf)
  }

  /** The keys letter by letter: the layer, the aggregate, and "latest" or the number asked for. */
  lemma KeyTexts(id: string, n: string)
    ensures StateKey(id, None) == LatestStateKey(id) == "aggregate-state:" + id + ":latest"
    ensures StateKey(id, Some(n)) == "aggregate-state:" + id + ":seq:" + n
    ensures LookupKey(id, None) == LatestLookupKey(id) == "snapshot-lookup:" + id + ":latest"
    ensures LookupKey(id, Some(n)) == "snapshot-lookup:" + id + ":seq:" + n
  {
    assert ":" + ("seq:" + n) == ":seq:" + n;
    assert ":" + "latest" == ":latest";
    assert forall front: string :: (front + id) + ":" + ("seq:" + n) == (front + id) + (":" + ("seq:" + n));
    assert forall front: string :: (front + id) + ":" + "latest" == (front + id) + (":" + "latest");
  }

  // ---- Reading a key back ----

  function TrailingDigits(s: string): (n: nat)
    ensures n <= |s|
  {
    if s == "" || !IsDigit(s[|s| - 1]) then 0 else 1 + TrailingDigits(s[..|s| - 1])
  }

  predicate EndsWith(s: string, suffix: string) {
    |suffix| <= |s| && s[|s| - |suffix|..] == suffix
  }

  function DecodeBody(layer: Layer, body: string): Option<Address> {
    var cut := |body| - TrailingDigits(body);
    if cut == |body| then
      if EndsWith(body, ":latest") then Some(Address(layer, body[..|body| - 7], None)) else None
    else if EndsWith(body[..cut], ":seq:") then Some(Address(layer, body[..cut - 5], Some(body[cut..])))
    else None
  }

  function Decode(key: string): Option<Address> {
    if STATE_PREFIX <= key then DecodeBody(StateLayer, key[|STATE_PREFIX|..])
    else if LOOKUP_PREFIX <= key then DecodeBody(LookupLayer, key[|LOOKUP_PREFIX|..])
    else None
  }

  lemma {:induction false} TrailingDigitsOf(front: string, digits: string)
    requires AllDigits(digits)
    requires front != "" && !IsDigit(front[|front| - 1])
    ensures TrailingDigits(front + digits) == |digits|
  {
    if digits == "" {
      assert front + digits == front;
    } else {
      var n := |digits| - 1;
      TrailingDigitsOf(front, digits[..n]);
      assert (front + digits)[..|front + digits| - 1] == front + digits[..n];
    }
  }

  lemma DecodesHistorical(layer: Layer, id: string, digits: string)
    requires IsDecimal(digits)
    ensures DecodeBody(layer, id + ":seq:" + digits) == Some(Address(layer, id, Some(digits)))
  {
    var front := id + ":seq:";
    var body := front + digits;
    TrailingDigitsOf(front, digits);
    assert body[..|front|] == front && body[|front|..] == digits;
    assert front[|id|..] == ":seq:" && front[..|id|] == id;
    assert body[..|id|] == id;
  }

  lemma DecodesLatest(layer: Layer, id: string)
    ensures DecodeBody(layer, id + ":latest") == Some(Address(layer, id, None))
  {
    var body := id + ":latest";
    assert body[|body| - 1] == 't';
    assert body[|id|..] == ":latest" && body[..|body| - 7] == id;
  }

  lemma DecodesBody(layer: Layer, id: string, asOf: Option<string>)
    requires ValidAsOf(asOf)
    ensures DecodeBody(layer, id + ":" + SequencePart(asOf)) == Some(Address(layer, id, asOf))
  {
    if asOf.Some? {
      DecodesHistorical(layer, id, asOf.value);
      assert id + ":" + ("seq:" + asOf.value) == id + ":seq:" + asOf.value;
    } else {
      DecodesLatest(layer, id);
      assert id + ":" + "latest" == id + ":latest";
    }
  }

  /** Round trip: every key a validated request can build decodes to what it stands for,
      whatever characters, colons included, the aggregate id holds. */
  lemma KeyRoundTrip(a: Address)
    requires ValidAsOf(a.asOf)
    ensures Decode(Encode(a)) == Some(a)
  {
    var key := Encode(a);
    var prefix := if a.layer == StateLayer then STATE_PREFIX else LOOKUP_PREFIX;
    var body := a.aggregateId + ":" + SequencePart(a.asOf);
    assert key == prefix + body;
    assert key[|prefix|..] == body;
    assert key[0] == prefix[0];
    if a.layer == LookupLayer {
      assert STATE_PREFIX[0] == 'a' && key[0] == 's';
    }
    DecodesBody(a.layer, a.aggregateId, a.asOf);
  }

  /** So keys never collide, within a layer or across the two. */
  lemma KeysAreInjective(a: Address, b: Address)
    requires ValidAsOf(a.asOf) && ValidAsOf(b.asOf)
    requires Encode(a) == Encode(b)
    ensures a == b
  {
    KeyRoundTrip(a);
    KeyRoundTrip(b);
  }

  /** The digits-only check is needed: without it two addresses can share a key. */
  lemma UncheckedKeysCollide()
    ensures exists a: Address, b: Address :: a != b && ValidAsOf(b.asOf) && Encode(a) == Encode(b)
  {
    var a := Address(StateLayer, "x", Some("1:seq:2"));
    var b := Address(StateLayer, "x:seq:1", Some("2"));
    assert "x" + ":" + ("seq:" + "1:seq:2") == "x:seq:1" + ":" + ("seq:" + "2");
    assert Encode(a) == STATE_PREFIX + ("x" + ":" + ("seq:" + "1:seq:2"));
    assert Encode(b) == STATE_PREFIX + ("x:seq:1" + ":" + ("seq:" + "2"));
  }
}
