/** `ParcelableDirectMessage`: Twidere's immutable record of one direct message,
    its four construction paths (a property bag, a cursor row, a Twitter4J object,
    a parcel), its parcel encoding, its message-id ordering, and its identity-based
    equality and hash. */
module DirectMessages {
  import opened Java
  import opened Android
  import opened TweetStore
  import opened Twitter4J

  datatype ParcelableDirectMessage = ParcelableDirectMessage(
    accountId: Long,
    messageId: Long,
    messageTimestamp: Long,
    senderId: Long,
    recipientId: Long,
    isOutgoing: bool,
    textHtml: Option<string>,
    textPlain: Option<string>,
    senderName: Option<string>,
    recipientName: Option<string>,
    senderScreenName: Option<string>,
    recipientScreenName: Option<string>,
    senderProfileImageUrl: Option<string>,
    recipientProfileImageUrl: Option<string>)

  /** `DirectMessageCursorIndices`: the position of each column in the current query's
      projection, -1 when the projection does not have it (as `Cursor.getColumnIndex` reports). */
  datatype DirectMessageCursorIndices = DirectMessageCursorIndices(
    accountId: int,
    isOutgoing: int,
    messageId: int,
    messageTimestamp: int,
    senderId: int,
    recipientId: int,
    text: int,
    textPlain: int,
    senderName: int,
    recipientName: int,
    senderScreenName: int,
    recipientScreenName: int,
    senderProfileImageUrl: int,
    recipientProfileImageUrl: int)

  /***** Ordering *****/

  /** `MESSAGE_ID_COMPARATOR.compare(a, b)`: the `long` difference of the message ids,
      larger ids first, clamped to the `int` range. */
  function Compare(a: ParcelableDirectMessage, b: ParcelableDirectMessage): Int
  {
    var diff := WrapLong(b.messageId - a.messageId);
    if diff > INT_MAX then INT_MAX
    else if diff < INT_MIN then INT_MIN
    else WrapInt(diff)
  }

  /** `a.compareTo(another)`; a null argument compares as equal. */
  function CompareTo(a: ParcelableDirectMessage, another: Option<ParcelableDirectMessage>): (r: Int)
    ensures another.None? ==> r == 0
  {
    match another
    case None => 0
    case Some(b) =>
      var diff := WrapLong(b.messageId - a.messageId);
      if diff > INT_MAX then INT_MAX
      else if diff < INT_MIN then INT_MIN
      else WrapInt(diff)
  }

  /** The comparator and `compareTo` agree on every non-null pair. */
  lemma CompareToAgreesWithComparator(a: ParcelableDirectMessage, b: ParcelableDirectMessage)
    ensures CompareTo(a, Some(b)) == Compare(a, b)
  {
  }

  /** The result is zero exactly when the message ids are equal (64-bit wrap-around
      never makes two different ids compare as equal). */
  lemma CompareZeroIffSameId(a: ParcelableDirectMessage, b: ParcelableDirectMessage)
    ensures Compare(a, b) == 0 <==> a.messageId == b.messageId
  {
  }

  /** True when `b.message_id - a.message_id` does not overflow a `long`. */
  predicate NoLongOverflow(a: ParcelableDirectMessage, b: ParcelableDirectMessage)
  {
    LONG_MIN <= b.messageId - a.messageId <= LONG_MAX
  }

  /** Without 64-bit overflow the sign of the result orders by message id, larger ids first. */
  lemma CompareSign(a: ParcelableDirectMessage, b: ParcelableDirectMessage)
    requires NoLongOverflow(a, b)
    ensures Compare(a, b) > 0 <==> b.messageId > a.messageId
    ensures Compare(a, b) < 0 <==> b.messageId < a.messageId
  {
  }

  /** The result is the wrapped 64-bit difference (congruent to `b.message_id - a.message_id`
      modulo 2^64) when it fits an `int`, and `Integer.MAX_VALUE` or `Integer.MIN_VALUE` when
      it does not; without overflow the wrapped difference is the difference itself. */
  lemma CompareSaturates(a: ParcelableDirectMessage, b: ParcelableDirectMessage)
    ensures var d := WrapLong(b.messageId - a.messageId);
      && (b.messageId - a.messageId - d) % TWO_64 == 0
      && (NoLongOverflow(a, b) ==> d == b.messageId - a.messageId)
      && (INT_MIN <= d <= INT_MAX ==> Compare(a, b) == d)
      && (d > INT_MAX ==> Compare(a, b) == INT_MAX)
      && (d < INT_MIN ==> Compare(a, b) == INT_MIN)
  {
  }

  /** When the subtraction does overflow, the wrapped difference decides the sign:
      a message with id `Long.MIN_VALUE` sorts before one with id 1 although its id is smaller. */
  lemma CompareWrapsOnOverflow()
    ensures var a := ParcelableDirectMessage(0, LONG_MIN, 0, 0, 0, false, None, None, None, None, None, None, None, None);
            var b := a.(messageId := 1);
            !NoLongOverflow(a, b) && b.messageId > a.messageId && Compare(a, b) == INT_MIN
  {
    assert WrapLong(1 - LONG_MIN) == LONG_MIN + 1;
  }

  /** Ids from -1 (the "unknown" id every defaulting constructor gives) up to
      `Long.MAX_VALUE - 1` never overflow, so on them the comparator is a total preorder:
      antisymmetric in sign and transitive. */
  lemma CompareOrdersUsualIds(a: ParcelableDirectMessage, b: ParcelableDirectMessage, c: ParcelableDirectMessage)
    requires -1 <= a.messageId < LONG_MAX && -1 <= b.messageId < LONG_MAX && -1 <= c.messageId < LONG_MAX
    ensures NoLongOverflow(a, b)
    ensures Compare(a, b) > 0 <==> Compare(b, a) < 0
    ensures Compare(a, b) >= 0 && Compare(b, c) >= 0 ==> Compare(a, c) >= 0
  {
    CompareSign(a, b);
    CompareSign(b, a);
    CompareSign(b, c);
    CompareSign(a, c);
  }

  /** A record with message id `id` and every other field at its default. */
  function WithId(id: Long): (r: ParcelableDirectMessage)
    ensures r.messageId == id
  {
    EMPTY.(messageId := id)
  }

  /** Over the whole `long` range the comparator is not antisymmetric: ids 0 and
      `Long.MIN_VALUE` each compare as sorting before the other. */
  lemma CompareNotAntisymmetric()
    ensures Compare(WithId(0), WithId(LONG_MIN)) < 0 && Compare(WithId(LONG_MIN), WithId(0)) < 0
  {
    assert WrapLong(LONG_MIN - 0) == LONG_MIN;
    assert WrapLong(0 - LONG_MIN) == LONG_MIN;
  }

  /** Nor transitive: ids 0, -1 and `Long.MIN_VALUE` each sort before the next, in a cycle. */
  lemma CompareCycle()
    ensures Compare(WithId(0), WithId(-1)) < 0
    ensures Compare(WithId(-1), WithId(LONG_MIN)) < 0
    ensures Compare(WithId(LONG_MIN), WithId(0)) < 0
  {
    assert WrapLong(-1 - 0) == -1;
    assert WrapLong(LONG_MIN - -1) == LONG_MIN + 1;
    assert WrapLong(0 - LONG_MIN) == LONG_MIN;
  }

  /***** Equality and hashing *****/

  /** A Java reference passed to `equals(Object)`. */
  datatype Object = Null | Record(m: ParcelableDirectMessage) | OtherObject

  /** `equals(obj)`: another record with the same account id and message id. The
      `this == obj` shortcut is covered: an identical object has the same ids. */
  predicate Equals(self: ParcelableDirectMessage, obj: Object)
  {
    match obj
    case Null => false
    case OtherObject => false
    case Record(other) => self.accountId == other.accountId && self.messageId == other.messageId
  }

  lemma EqualsIsIdentity(a: ParcelableDirectMessage, b: ParcelableDirectMessage)
    ensures Equals(a, Record(b)) <==> (a.accountId, a.messageId) == (b.accountId, b.messageId)
    ensures !Equals(a, Null) && !Equals(a, OtherObject)
  {
  }

  lemma EqualsIsEquivalence(a: ParcelableDirectMessage, b: ParcelableDirectMessage, c: ParcelableDirectMessage)
    ensures Equals(a, Record(a))
    ensures Equals(a, Record(b)) <==> Equals(b, Record(a))
    ensures Equals(a, Record(b)) && Equals(b, Record(c)) ==> Equals(a, Record(c))
  {
  }

  /** `(int) (x ^ (x >>> 32))`: the 32-bit fold of a `long` that `hashCode` uses. */
  function LongHash(x: Long): Int
  {
    FoldBits(LongBits(x))
  }

  /** `(int) (x ^ (x >>> 32))` on the bits of `x`. */
  function FoldBits(bits: bv64): Int
  {
    WrapInt(LongOfBits(XorHighHalf(bits)))
  }

  /** `x ^ (x >>> 32)`: `>>>` is the logical shift of the bit pattern. */
  function XorHighHalf(bits: bv64): bv64
  {
    bits ^ (bits >> 32)
  }

  /** `hashCode()`: `31 * (31 * 1 + fold(account_id)) + fold(message_id)` in `int` arithmetic. */
  function HashCode(m: ParcelableDirectMessage): Int
  {
    CombineHashes(LongHash(m.accountId), LongHash(m.messageId))
  }

  /** The two `result = prime * result + h` steps, with prime 31 and `result` starting at 1. */
  function CombineHashes(h1: Int, h2: Int): Int
  {
    var result := WrapInt(31 * 1 + h1);
    WrapInt(31 * result + h2)
  }

  /** The two wrapped steps of `hashCode` equal one wrap of the polynomial
      `31^2 + 31 * h1 + h2`. */
  lemma {:induction false} CombineHashesClosedForm(h1: Int, h2: Int)
    ensures CombineHashes(h1, h2) == WrapInt(961 + 31 * h1 + h2)
  {
    WrapIntMulAdd(31, 31 * 1 + h1, h2);
  }

  /** The fold leaves an id in `[0, Integer.MAX_VALUE]` as it is; the id is given
      by its bit pattern `b`. */
  lemma LongHashOfSmall(b: bv64)
    requires b as int <= INT_MAX
    ensures LongHash(LongOfBits(b)) == b as int
  {
    LongBitsOfLongOfBits(b);
    FoldBitsOfSmall(b);
  }

  lemma FoldBitsOfSmall(b: bv64)
    requires b as int <= INT_MAX
    ensures FoldBits(b) == b as int
  {
    HighHalfOfSmall(b);
    assert LongOfBits(b) == b as int;
  }

  lemma HighHalfOfSmall(b: bv64)
    requires b as int <= INT_MAX
    ensures XorHighHalf(b) == b
  {
    assert b <= 0x7FFF_FFFF;
    SmallBits(b);
  }

  /** A bit pattern below 2^31 has an empty high half, so the fold leaves it alone. */
  lemma SmallBits(b: bv64)
    requires b <= 0x7FFF_FFFF
    ensures b >> 32 == 0 && b ^ (b >> 32) == b
  {
  }

  /** The fold of -1 (the record's "unknown" id) is 0. */
  lemma LongHashOfMinusOne()
    ensures LongHash(-1) == 0
  {
    assert LongBits(-1) == 0xFFFF_FFFF_FFFF_FFFF;
    var bits: bv64 := 0xFFFF_FFFF_FFFF_FFFF;
    assert bits ^ (bits >> 32) == 0xFFFF_FFFF_0000_0000;
    assert LongOfBits(0xFFFF_FFFF_0000_0000) == -TWO_32;
  }

  /** Equal records hash equally; the hash reads nothing but the two identity fields. */
  lemma EqualsImpliesSameHash(a: ParcelableDirectMessage, b: ParcelableDirectMessage)
    requires Equals(a, Record(b))
    ensures HashCode(a) == HashCode(b)
  {
  }

  /** `describeContents()` returns `hashCode()`. */
  function DescribeContents(m: ParcelableDirectMessage): (r: Int)
    ensures r == HashCode(m)
  {
    HashCode(m)
  }

  /***** Parcel encoding *****/

  /** The values `writeToParcel` appends, in order. */
  function Encode(m: ParcelableDirectMessage): (s: seq<ParcelValue>)
  {
    [ LongValue(m.accountId), LongValue(m.messageId), LongValue(m.messageTimestamp),
      LongValue(m.senderId), LongValue(m.recipientId),
      IntValue(if m.isOutgoing then 1 else 0),
      StringValue(m.textHtml), StringValue(m.textPlain),
      StringValue(m.senderName), StringValue(m.recipientName),
      StringValue(m.senderScreenName), StringValue(m.recipientScreenName),
      StringValue(m.senderProfileImageUrl), StringValue(m.recipientProfileImageUrl) ]
  }

  const FIELD_COUNT: nat := 14

  /** The kind of value the `k`th read of the `Parcel` constructor asks for:
      five longs, one int, eight strings. */
  predicate FitsLayout(v: ParcelValue, k: nat)
  {
    if k < 5 then v.LongValue? else if k == 5 then v.IntValue? else v.StringValue?
  }

  /** Each of the first fourteen values that is present has the kind its read asks for. */
  predicate Readable(s: seq<ParcelValue>)
  {
    forall i | 0 <= i < |s| && i < FIELD_COUNT :: FitsLayout(s[i], i)
  }

  /** The record the `Parcel` constructor reads from the values `s` after the read
      position: the `k`th field from the `k`th value. */
  function Decode(s: seq<ParcelValue>): ParcelableDirectMessage
  {
    ParcelableDirectMessage(
      LongRead(s, 0), LongRead(s, 1), LongRead(s, 2), LongRead(s, 3), LongRead(s, 4),
      IntRead(s, 5) == 1,
      StringRead(s, 6), StringRead(s, 7), StringRead(s, 8), StringRead(s, 9),
      StringRead(s, 10), StringRead(s, 11), StringRead(s, 12), StringRead(s, 13))
  }

  /** How many values the `Parcel` constructor consumes from `s`. */
  function Consumed(s: seq<ParcelValue>): nat
  {
    if |s| < FIELD_COUNT then |s| else FIELD_COUNT
  }

  /** From a used-up parcel every read gives its default: zero ids and timestamp, false,
      null strings, and nothing is consumed. */
  lemma DecodeEmpty()
    ensures Decode([]) == ParcelableDirectMessage(0, 0, 0, 0, 0, false, None, None, None, None, None, None, None, None)
    ensures Consumed([]) == 0
  {
  }

  /** Reading back what was written gives the record unchanged, null strings included,
      and consumes exactly the written values, whatever follows them. */
  lemma {:induction false} DecodeEncode(m: ParcelableDirectMessage, rest: seq<ParcelValue>)
    ensures |Encode(m)| == FIELD_COUNT
    ensures Readable(Encode(m) + rest)
    ensures Decode(Encode(m) + rest) == m
    ensures Consumed(Encode(m) + rest) == FIELD_COUNT
  {
  }

  /** Conversely, fourteen readable values whose int is 0 or 1 are exactly the
      encoding of the record read from them. */
  lemma {:induction false} EncodeDecode(s: seq<ParcelValue>)
    requires Readable(s) && |s| >= FIELD_COUNT
    requires s[5] == IntValue(0) || s[5] == IntValue(1)
    ensures Encode(Decode(s)) == s[..FIELD_COUNT]
  {
  }

  /** The values that `writeToParcel` appends for each record of `ms` in turn, as when
      several records share one parcel. */
  function EncodeAll(ms: seq<ParcelableDirectMessage>): (s: seq<ParcelValue>)
    ensures |s| == FIELD_COUNT * |ms|
  {
    if ms == [] then [] else Encode(ms[0]) + EncodeAll(ms[1..])
  }

  /** `n` records read one after another by the `Parcel` constructor, each starting
      where the previous one stopped. */
  function DecodeAll(s: seq<ParcelValue>, n: nat): seq<ParcelableDirectMessage>
  {
    if n == 0 then [] else [Decode(s)] + DecodeAll(s[Consumed(s)..], n - 1)
  }

  /** Because each read consumes exactly the values its record wrote, records written
      back to back are read back in order, whatever follows them. */
  lemma {:induction false} DecodeAllEncodeAll(ms: seq<ParcelableDirectMessage>, rest: seq<ParcelValue>)
    ensures DecodeAll(EncodeAll(ms) + rest, |ms|) == ms
  {
    if ms != [] {
      var tail := EncodeAll(ms[1..]) + rest;
      assert EncodeAll(ms) + rest == Encode(ms[0]) + tail;
      DecodeEncode(ms[0], tail);
      assert (Encode(ms[0]) + tail)[FIELD_COUNT..] == tail;
      DecodeAllEncodeAll(ms[1..], rest);
      assert ms == [ms[0]] + ms[1..];
    }
  }

  /** The values of `prefix` followed by those `writeToParcel` appends, one write at a time. */
  function EncodeOnto(prefix: seq<ParcelValue>, m: ParcelableDirectMessage): seq<ParcelValue>
  {
    prefix + [LongValue(m.accountId)] + [LongValue(m.messageId)] + [LongValue(m.messageTimestamp)]
    + [LongValue(m.senderId)] + [LongValue(m.recipientId)] + [IntValue(if m.isOutgoing then 1 else 0)]
    + [StringValue(m.textHtml)] + [StringValue(m.textPlain)] + [StringValue(m.senderName)]
    + [StringValue(m.recipientName)] + [StringValue(m.senderScreenName)] + [StringValue(m.recipientScreenName)]
    + [StringValue(m.senderProfileImageUrl)] + [StringValue(m.recipientProfileImageUrl)]
  }

  /** Writing the values one at a time appends exactly the encoding. */
  lemma EncodeOntoAppends(prefix: seq<ParcelValue>, m: ParcelableDirectMessage)
    ensures EncodeOnto(prefix, m) == prefix + Encode(m)
  {
  }

  /** `writeToParcel(out, flags)`: appends the fourteen values and nothing else. */
  method WriteToParcel(m: ParcelableDirectMessage, out: Parcel)
    requires out.Valid()
    modifies out
    ensures out.Valid()
    ensures out.values == old(out.values) + Encode(m)
    ensures out.position == old(out.position)
  {
    out.WriteLong(m.accountId);
    out.WriteLong(m.messageId);
    out.WriteLong(m.messageTimestamp);
    out.WriteLong(m.senderId);
    out.WriteLong(m.recipientId);
    out.WriteInt(if m.isOutgoing then 1 else 0);
    out.WriteString(m.textHtml);
    out.WriteString(m.textPlain);
    out.WriteString(m.senderName);
    out.WriteString(m.recipientName);
    out.WriteString(m.senderScreenName);
    out.WriteString(m.recipientScreenName);
    out.WriteString(m.senderProfileImageUrl);
    out.WriteString(m.recipientProfileImageUrl);
    EncodeOntoAppends(old(out.values), m);
  }

  /** The fourteen reads of the `Parcel` constructor, one position after another from
      `start`: the record read and where the read position ends. */
  function ReadFrom(values: seq<ParcelValue>, start: nat): (ParcelableDirectMessage, nat)
  {
    var accountId := LongRead(values, start); var p1 := Advance(values, start);
    var messageId := LongRead(values, p1); var p2 := Advance(values, p1);
    var messageTimestamp := LongRead(values, p2); var p3 := Advance(values, p2);
    var senderId := LongRead(values, p3); var p4 := Advance(values, p3);
    var recipientId := LongRead(values, p4); var p5 := Advance(values, p4);
    var outgoing := IntRead(values, p5); var p6 := Advance(values, p5);
    var textHtml := StringRead(values, p6); var p7 := Advance(values, p6);
    var textPlain := StringRead(values, p7); var p8 := Advance(values, p7);
    var senderName := StringRead(values, p8); var p9 := Advance(values, p8);
    var recipientName := StringRead(values, p9); var p10 := Advance(values, p9);
    var senderScreenName := StringRead(values, p10); var p11 := Advance(values, p10);
    var recipientScreenName := StringRead(values, p11); var p12 := Advance(values, p11);
    var senderProfileImageUrl := StringRead(values, p12); var p13 := Advance(values, p12);
    var recipientProfileImageUrl := StringRead(values, p13); var p14 := Advance(values, p13);
    (ParcelableDirectMessage(
       accountId, messageId, messageTimestamp, senderId, recipientId, outgoing == 1,
       textHtml, textPlain, senderName, recipientName, senderScreenName, recipientScreenName,
       senderProfileImageUrl, recipientProfileImageUrl),
     p14)
  }

  /** The fourteen reads from `start` yield `Decode` of the values from there on and
      consume `Consumed` of them. */
  lemma {:induction false} ReadFromDecodes(values: seq<ParcelValue>, start: nat)
    requires start <= |values|
    ensures ReadFrom(values, start) == (Decode(values[start..]), start + Consumed(values[start..]))
  {
  }

  /** The `Parcel` constructor: fourteen reads from the read position on. */
  method FromParcel(p: Parcel) returns (m: ParcelableDirectMessage)
    requires p.Valid()
    modifies p`position
    ensures p.Valid()
    ensures m == Decode(old(p.values[p.position..]))
    ensures p.position == old(p.position) + Consumed(old(p.values[p.position..]))
  {
    ReadFromDecodes(p.values, p.position);
    var accountId := p.ReadLong();
    var messageId := p.ReadLong();
    var messageTimestamp := p.ReadLong();
    var senderId := p.ReadLong();
    var recipientId := p.ReadLong();
    var outgoing := p.ReadInt();
    var textHtml := p.ReadString();
    var textPlain := p.ReadString();
    var senderName := p.ReadString();
    var recipientName := p.ReadString();
    var senderScreenName := p.ReadString();
    var recipientScreenName := p.ReadString();
    var senderProfileImageUrl := p.ReadString();
    var recipientProfileImageUrl := p.ReadString();
    m := ParcelableDirectMessage(
      accountId, messageId, messageTimestamp, senderId, recipientId, outgoing == 1,
      textHtml, textPlain, senderName, recipientName, senderScreenName, recipientScreenName,
      senderProfileImageUrl, recipientProfileImageUrl);
  }

  /** Writing a record to a parcel whose reader has caught up and reading it back yields
      the record, and leaves the reader at the end of what was written. */
  method WriteThenRead(m: ParcelableDirectMessage, p: Parcel) returns (r: ParcelableDirectMessage)
    requires p.Valid() && p.position == |p.values|
    modifies p
    ensures r == m
    ensures p.values == old(p.values) + Encode(m) && p.position == |p.values|
  {
    WriteToParcel(m, p);
    assert p.values[p.position..] == Encode(m) + [];
    DecodeEncode(m, []);
    r := FromParcel(p);
  }

  /** `CREATOR.createFromParcel` on a fresh parcel that `writeToParcel` filled: the record itself. */
  method ParcelRoundTrip(m: ParcelableDirectMessage) returns (r: ParcelableDirectMessage)
    ensures r == m
  {
    var p := new Parcel();
    r := WriteThenRead(m, p);
  }

  /***** Construction from a property bag *****/

  /** The `ContentValues` constructor: longs default to -1, the flag to false,
      strings to null. */
  function FromContentValues(values: ContentValues<Column>): ParcelableDirectMessage
  {
    ParcelableDirectMessage(
      accountId := GetAsLong(values, AccountId, -1),
      messageId := GetAsLong(values, MessageId, -1),
      messageTimestamp := GetAsLong(values, MessageTimestamp, -1),
      senderId := GetAsLong(values, SenderId, -1),
      recipientId := GetAsLong(values, RecipientId, -1),
      isOutgoing := GetAsBoolean(values, IsOutgoing, false),
      textHtml := GetAsString(values, TextHtml),
      textPlain := GetAsString(values, TextPlain),
      senderName := GetAsString(values, SenderName),
      recipientName := GetAsString(values, RecipientName),
      senderScreenName := GetAsString(values, SenderScreenName),
      recipientScreenName := GetAsString(values, RecipientScreenName),
      senderProfileImageUrl := GetAsString(values, SenderProfileImageUrl),
      recipientProfileImageUrl := GetAsString(values, RecipientProfileImageUrl))
  }

  /** The record every construction path yields when its source has nothing. */
  const EMPTY: ParcelableDirectMessage :=
    ParcelableDirectMessage(-1, -1, -1, -1, -1, false, None, None, None, None, None, None, None, None)

  /** An empty bag gives -1 ids and timestamp, false, and null strings. */
  lemma FromEmptyContentValues()
    ensures FromContentValues(map[]) == EMPTY
  {
  }

  /** Every field is read from its own key, and from no other: a present key gives its
      entry's reading, an absent one -1 (longs), false (the flag) or null (strings). */
  lemma FromContentValuesFields(values: ContentValues<Column>)
    ensures var r := FromContentValues(values);
      && r.accountId == (if AccountId in values then values[AccountId].asLong else -1)
      && r.messageId == (if MessageId in values then values[MessageId].asLong else -1)
      && r.messageTimestamp == (if MessageTimestamp in values then values[MessageTimestamp].asLong else -1)
      && r.senderId == (if SenderId in values then values[SenderId].asLong else -1)
      && r.recipientId == (if RecipientId in values then values[RecipientId].asLong else -1)
      && r.isOutgoing == (if IsOutgoing in values then values[IsOutgoing].asBoolean else false)
      && r.textHtml == (if TextHtml in values then values[TextHtml].asString else None)
      && r.textPlain == (if TextPlain in values then values[TextPlain].asString else None)
      && r.senderName == (if SenderName in values then values[SenderName].asString else None)
      && r.recipientName == (if RecipientName in values then values[RecipientName].asString else None)
      && r.senderScreenName == (if SenderScreenName in values then values[SenderScreenName].asString else None)
      && r.recipientScreenName == (if RecipientScreenName in values then values[RecipientScreenName].asString else None)
      && r.senderProfileImageUrl == (if SenderProfileImageUrl in values then values[SenderProfileImageUrl].asString else None)
      && r.recipientProfileImageUrl == (if RecipientProfileImageUrl in values then values[RecipientProfileImageUrl].asString else None)
  {
  }

  /** A bag holding every field of `m` under its column, as a store would fill it. */
  function ContentValuesOf(m: ParcelableDirectMessage): ContentValues<Column>
  {
    map[
      AccountId := Entry(m.accountId, false, None),
      MessageId := Entry(m.messageId, false, None),
      MessageTimestamp := Entry(m.messageTimestamp, false, None),
      SenderId := Entry(m.senderId, false, None),
      RecipientId := Entry(m.recipientId, false, None),
      IsOutgoing := Entry(0, m.isOutgoing, None),
      TextHtml := Entry(0, false, m.textHtml),
      TextPlain := Entry(0, false, m.textPlain),
      SenderName := Entry(0, false, m.senderName),
      RecipientName := Entry(0, false, m.recipientName),
      SenderScreenName := Entry(0, false, m.senderScreenName),
      RecipientScreenName := Entry(0, false, m.recipientScreenName),
      SenderProfileImageUrl := Entry(0, false, m.senderProfileImageUrl),
      RecipientProfileImageUrl := Entry(0, false, m.recipientProfileImageUrl)]
  }

  /** Every field is read from its own key: a full bag gives the record back. */
  lemma FromContentValuesOf(m: ParcelableDirectMessage)
    ensures FromContentValues(ContentValuesOf(m)) == m
  {
  }

  /***** Construction from a cursor row *****/

  function LongColumn(row: Row, index: int): Result<Long, CursorError>
  {
    if index != -1 then GetLong(row, index) else Success(-1)
  }

  function StringColumn(row: Row, index: int): Result<Option<string>, CursorError>
  {
    if index != -1 then GetString(row, index) else Success(None)
  }

  /** `index != -1 ? cursor.getShort(index) == 1 : null`, unboxed into a `boolean`. */
  function OutgoingColumn(row: Row, index: int): Result<bool, CursorError>
  {
    if index != -1 then
      var v :- GetShort(row, index);
      Success(v == 1)
    else Failure(NullUnboxing)
  }

  /** The `Cursor` constructor, statement by statement; the first getter that throws,
      or the unboxing of a null flag, ends construction. */
  function FromCursor(row: Row, indices: DirectMessageCursorIndices): Result<ParcelableDirectMessage, CursorError>
  {
    var accountId :- LongColumn(row, indices.accountId);
    var isOutgoing :- OutgoingColumn(row, indices.isOutgoing);
    var messageId :- LongColumn(row, indices.messageId);
    var messageTimestamp :- LongColumn(row, indices.messageTimestamp);
    var senderId :- LongColumn(row, indices.senderId);
    var recipientId :- LongColumn(row, indices.recipientId);
    var textHtml :- StringColumn(row, indices.text);
    var textPlain :- StringColumn(row, indices.textPlain);
    var senderName :- StringColumn(row, indices.senderName);
    var recipientName :- StringColumn(row, indices.recipientName);
    var senderScreenName :- StringColumn(row, indices.senderScreenName);
    var recipientScreenName :- StringColumn(row, indices.recipientScreenName);
    var senderProfileImageUrl :- StringColumn(row, indices.senderProfileImageUrl);
    var recipientProfileImageUrl :- StringColumn(row, indices.recipientProfileImageUrl);
    Success(ParcelableDirectMessage(
      accountId, messageId, messageTimestamp, senderId, recipientId, isOutgoing,
      textHtml, textPlain, senderName, recipientName, senderScreenName, recipientScreenName,
      senderProfileImageUrl, recipientProfileImageUrl))
  }

  /** Every index is either -1 or a column of the row. */
  predicate IndicesFit(row: Row, ix: DirectMessageCursorIndices)
  {
    var n := |row.cells|;
    && (ix.accountId == -1 || 0 <= ix.accountId < n)
    && (ix.isOutgoing == -1 || 0 <= ix.isOutgoing < n)
    && (ix.messageId == -1 || 0 <= ix.messageId < n)
    && (ix.messageTimestamp == -1 || 0 <= ix.messageTimestamp < n)
    && (ix.senderId == -1 || 0 <= ix.senderId < n)
    && (ix.recipientId == -1 || 0 <= ix.recipientId < n)
    && (ix.text == -1 || 0 <= ix.text < n)
    && (ix.textPlain == -1 || 0 <= ix.textPlain < n)
    && (ix.senderName == -1 || 0 <= ix.senderName < n)
    && (ix.recipientName == -1 || 0 <= ix.recipientName < n)
    && (ix.senderScreenName == -1 || 0 <= ix.senderScreenName < n)
    && (ix.recipientScreenName == -1 || 0 <= ix.recipientScreenName < n)
    && (ix.senderProfileImageUrl == -1 || 0 <= ix.senderProfileImageUrl < n)
    && (ix.recipientProfileImageUrl == -1 || 0 <= ix.recipientProfileImageUrl < n)
  }

  /** The reading of one long field: -1 for a missing column. */
  function LongField(row: Row, index: int): Long
    requires index == -1 || 0 <= index < |row.cells|
  {
    if index == -1 then -1 else row.cells[index].asLong
  }

  function StringField(row: Row, index: int): Option<string>
    requires index == -1 || 0 <= index < |row.cells|
  {
    if index == -1 then None else row.cells[index].asString
  }

  /** When every index fits the row, construction fails exactly when the `is_outgoing`
      column is missing, and then with a null-unboxing error. Otherwise every long field
      is -1 or its column's long, every string field null or its column's string (the
      html text from the `text` column), and the flag is true iff the short reads 1. */
  lemma FromCursorOutcome(row: Row, ix: DirectMessageCursorIndices)
    requires IndicesFit(row, ix)
    ensures FromCursor(row, ix).Failure? <==> ix.isOutgoing == -1
    ensures ix.isOutgoing == -1 ==> FromCursor(row, ix) == Failure(NullUnboxing)
    ensures ix.isOutgoing != -1 ==> FromCursor(row, ix) == Success(ParcelableDirectMessage(
      LongField(row, ix.accountId), LongField(row, ix.messageId), LongField(row, ix.messageTimestamp),
      LongField(row, ix.senderId), LongField(row, ix.recipientId),
      row.cells[ix.isOutgoing].asShort == 1,
      StringField(row, ix.text), StringField(row, ix.textPlain),
      StringField(row, ix.senderName), StringField(row, ix.recipientName),
      StringField(row, ix.senderScreenName), StringField(row, ix.recipientScreenName),
      StringField(row, ix.senderProfileImageUrl), StringField(row, ix.recipientProfileImageUrl)))
  {
    if ix.isOutgoing == -1 {
      FromCursorWithoutFlag(row, ix);
    } else {
      FromCursorWithFlag(row, ix);
    }
  }

  /** With fitting indices and no `is_outgoing` column, the account id is read and then
      the null flag is unboxed. */
  lemma FromCursorWithoutFlag(row: Row, ix: DirectMessageCursorIndices)
    requires IndicesFit(row, ix) && ix.isOutgoing == -1
    ensures FromCursor(row, ix) == Failure(NullUnboxing)
  {
    assert LongColumn(row, ix.accountId).Success?;
  }

  /** With fitting indices and the `is_outgoing` column present, every getter succeeds. */
  lemma FromCursorWithFlag(row: Row, ix: DirectMessageCursorIndices)
    requires IndicesFit(row, ix) && ix.isOutgoing != -1
    ensures FromCursor(row, ix) == Success(ParcelableDirectMessage(
      LongField(row, ix.accountId), LongField(row, ix.messageId), LongField(row, ix.messageTimestamp),
      LongField(row, ix.senderId), LongField(row, ix.recipientId),
      row.cells[ix.isOutgoing].asShort == 1,
      StringField(row, ix.text), StringField(row, ix.textPlain),
      StringField(row, ix.senderName), StringField(row, ix.recipientName),
      StringField(row, ix.senderScreenName), StringField(row, ix.recipientScreenName),
      StringField(row, ix.senderProfileImageUrl), StringField(row, ix.recipientProfileImageUrl)))
  {
    assert OutgoingColumn(row, ix.isOutgoing) == Success(row.cells[ix.isOutgoing].asShort == 1);
  }

  /** A column missing from the projection gives -1 whatever the row holds. */
  lemma FromCursorMissingSender(row: Row, ix: DirectMessageCursorIndices)
    requires IndicesFit(row, ix) && ix.isOutgoing != -1 && ix.senderId == -1
    ensures FromCursor(row, ix).Success? && FromCursor(row, ix).value.senderId == -1
  {
    FromCursorOutcome(row, ix);
  }

  /** Construction succeeds exactly when every index is -1 or a column of the row and the
      `is_outgoing` column is present. */
  lemma FromCursorSucceedsIff(row: Row, ix: DirectMessageCursorIndices)
    ensures FromCursor(row, ix).Success? <==> IndicesFit(row, ix) && ix.isOutgoing != -1
  {
    if IndicesFit(row, ix) {
      FromCursorOutcome(row, ix);
    }
  }

  /** An index outside the row that is read before any other failure is the error reported. */
  lemma FromCursorBadAccountColumn(row: Row, ix: DirectMessageCursorIndices)
    requires ix.accountId != -1 && !(0 <= ix.accountId < |row.cells|)
    ensures FromCursor(row, ix) == Failure(ColumnOutOfRange(ix.accountId))
  {
  }

  /** The projection that puts the fields in the parcel order, columns 0 to 13. */
  const STANDARD_INDICES: DirectMessageCursorIndices := DirectMessageCursorIndices(0, 5, 1, 2, 3, 4, 6, 7, 8, 9, 10, 11, 12, 13)

  /** A row holding `m`'s fields in the standard projection, the flag stored as 1 or 0. */
  function RowOf(m: ParcelableDirectMessage): Row
  {
    Row([
      Cell(m.accountId, 0, None), Cell(m.messageId, 0, None), Cell(m.messageTimestamp, 0, None),
      Cell(m.senderId, 0, None), Cell(m.recipientId, 0, None),
      Cell(0, if m.isOutgoing then 1 else 0, None),
      Cell(0, 0, m.textHtml), Cell(0, 0, m.textPlain), Cell(0, 0, m.senderName),
      Cell(0, 0, m.recipientName), Cell(0, 0, m.senderScreenName), Cell(0, 0, m.recipientScreenName),
      Cell(0, 0, m.senderProfileImageUrl), Cell(0, 0, m.recipientProfileImageUrl)])
  }

  /** Every field is read from its own column: a full row gives the record back. */
  lemma FromCursorRowOf(m: ParcelableDirectMessage)
    ensures FromCursor(RowOf(m), STANDARD_INDICES) == Success(m)
  {
  }

  /***** Construction from a Twitter4J direct message *****/

  /** `getTime(date)`: epoch milliseconds, 0 for a null date. */
  function GetTime(date: Option<Date>): (t: Long)
    ensures date.None? ==> t == 0
    ensures date.Some? ==> t == date.value.time
  {
    match date
    case None => 0
    case Some(d) => d.time
  }

  /** The Twitter4J constructor. `formatText` stands for `Utils.formatDirectMessageText`
      and `biggerImage` for `Utils.getBiggerTwitterProfileImage`. */
  function FromTwitter(
    message: DirectMessage, accountId: Long, isOutgoing: bool, largeProfileImage: bool,
    formatText: DirectMessage -> Option<string>, biggerImage: Option<string> -> Option<string>)
    : ParcelableDirectMessage
  {
    var sender, recipient := message.sender, message.recipient;
    var senderImage := if sender.Some? then sender.value.profileImageUrlHttps else None;
    var recipientImage := if recipient.Some? then recipient.value.profileImageUrlHttps else None;
    ParcelableDirectMessage(
      accountId := accountId,
      messageId := message.id,
      messageTimestamp := GetTime(message.createdAt),
      senderId := if sender.Some? then sender.value.id else -1,
      recipientId := if recipient.Some? then recipient.value.id else -1,
      isOutgoing := isOutgoing,
      textHtml := formatText(message),
      textPlain := message.text,
      senderName := if sender.Some? then sender.value.name else None,
      recipientName := if recipient.Some? then recipient.value.name else None,
      senderScreenName := if sender.Some? then sender.value.screenName else None,
      recipientScreenName := if recipient.Some? then recipient.value.screenName else None,
      senderProfileImageUrl := if largeProfileImage then biggerImage(senderImage) else senderImage,
      recipientProfileImageUrl := if largeProfileImage then biggerImage(recipientImage) else recipientImage)
  }

  /** The fields copied from the arguments and the message itself. */
  lemma FromTwitterCopies(
    message: DirectMessage, accountId: Long, isOutgoing: bool, large: bool,
    formatText: DirectMessage -> Option<string>, biggerImage: Option<string> -> Option<string>)
    ensures var r := FromTwitter(message, accountId, isOutgoing, large, formatText, biggerImage);
      && r.accountId == accountId && r.isOutgoing == isOutgoing
      && r.messageId == message.id && r.textPlain == message.text
      && r.textHtml == formatText(message)
      && r.messageTimestamp == (if message.createdAt.None? then 0 else message.createdAt.value.time)
  {
  }

  /** An absent sender gives id -1 and null name, screen name and (unless rewritten) image. */
  lemma FromTwitterNoSender(
    message: DirectMessage, accountId: Long, isOutgoing: bool, large: bool,
    formatText: DirectMessage -> Option<string>, biggerImage: Option<string> -> Option<string>)
    requires message.sender.None?
    ensures var r := FromTwitter(message, accountId, isOutgoing, large, formatText, biggerImage);
      && r.senderId == -1 && r.senderName == None && r.senderScreenName == None
      && r.senderProfileImageUrl == (if large then biggerImage(None) else None)
  {
  }

  /** A present sender's fields are copied; its image is rewritten only when asked. */
  lemma FromTwitterSender(
    message: DirectMessage, accountId: Long, isOutgoing: bool, large: bool,
    formatText: DirectMessage -> Option<string>, biggerImage: Option<string> -> Option<string>)
    requires message.sender.Some?
    ensures var r := FromTwitter(message, accountId, isOutgoing, large, formatText, biggerImage);
      var u := message.sender.value;
      && r.senderId == u.id && r.senderName == u.name && r.senderScreenName == u.screenName
      && (large ==> r.senderProfileImageUrl == biggerImage(u.profileImageUrlHttps))
      && (!large ==> r.senderProfileImageUrl == u.profileImageUrlHttps)
  {
  }

  /** The same for the recipient. */
  lemma FromTwitterRecipient(
    message: DirectMessage, accountId: Long, isOutgoing: bool, large: bool,
    formatText: DirectMessage -> Option<string>, biggerImage: Option<string> -> Option<string>)
    ensures var r := FromTwitter(message, accountId, isOutgoing, large, formatText, biggerImage);
      && (message.recipient.None? ==>
            r.recipientId == -1 && r.recipientName == None && r.recipientScreenName == None
            && r.recipientProfileImageUrl == (if large then biggerImage(None) else None))
      && (message.recipient.Some? ==>
            var u := message.recipient.value;
            r.recipientId == u.id && r.recipientName == u.name && r.recipientScreenName == u.screenName
            && r.recipientProfileImageUrl == (if large then biggerImage(u.profileImageUrlHttps) else u.profileImageUrlHttps))
  {
  }
}
