# ParcelableDirectMessage, modelled in Dafny

Twidere keeps every direct message it shows as an immutable `ParcelableDirectMessage`.
This record has fourteen fields:
- five `long`s: account, message, timestamp, sender and recipient ids;
- the `is_out_going` flag;
- eight nullable strings.

The record can be built in four ways:
- from a `ContentValues` property bag;
- from a database `Cursor` row with its table of column positions;
- from a Twitter4J `DirectMessage`;
- from an Android `Parcel`.

`writeToParcel` flattens it into a parcel again. Messages are ordered by message id through a comparator that clamps the 64-bit difference to `int`. When that subtraction does not overflow, larger ids come first. `equals`, `hashCode` and `describeContents` depend only on the pair (account id, message id).

The project has four modules:
- `java.dfy` (module `Java`): Java's `long`, `int` and `short`, written out as bounded integers.
  - `WrapLong` and `WrapInt` model two's-complement wrap-around and the `(int)` cast.
  - The bit pattern of a `long` is a `bv64`.
  - `Option` models a nullable reference; `Result` models an expression that may throw.
- `android.dfy` (module `Android`): the Android collaborators the record uses.
  - `Parcel` is a class holding a sequence of typed values and a separate read position. Writes append at the end. Reads return the value at the read position and move it one on. Once the data is used up, a read returns 0 or null and does not move.
  - A `ContentValues` bag is a map from column to what its typed getters return.
  - A cursor row is a sequence of cells whose typed getters fail on a column the row does not have.
- `twitter4j.dfy` (module `Twitter4J`) and `tweet_store.dfy` (module `TweetStore`):
  - the Twitter4J message, user and date as plain values;
  - the direct-message columns as an enumeration.
- `direct_message.dfy` (module `DirectMessages`): the record, its package's per-query column-index table `DirectMessageCursorIndices`, and every operation in the source file, with the lemmas about them.
  - `writeToParcel` and the `Parcel` constructor are methods on a `Parcel` that change it in place. Each is proved against a specification function: `Encode` and `Decode`. The round trip and its converse are lemmas about those functions.
  - The comparators, `equals`, `hashCode` and the three other constructors are functions:
    - `Compare` is `MESSAGE_ID_COMPARATOR.compare` (lines 60-65) and `CompareTo` is `compareTo` (lines 158-164).
    - `Equals` is `equals` (lines 172-180).
    - `HashCode` is `hashCode` (lines 183-189). It folds each id with `LongHash` and combines the two with `CombineHashes`.
    - `DescribeContents` is `describeContents` (lines 167-169).
    - `FromContentValues` is the `ContentValues` constructor (lines 78-93).
    - `FromCursor` is the `Cursor` constructor (lines 95-113).
    - `FromTwitter` is the Twitter4J constructor (lines 115-138), and `GetTime` is `getTime` (lines 219-221).
    - `Encode` and `Decode` are the specifications of `writeToParcel` (lines 201-217) and of the `Parcel` constructor (lines 140-155).
  - The `Cursor` constructor returns a `Result`, because line 97 unboxes a null `Boolean` when the `is_outgoing` column is missing.

## Model

| member | source | states |
|---|---|---|
| Java.WrapLong | src/org/mariotaku/twidere/model/ParcelableDirectMessage.java:61 | the `long` result of a subtraction is congruent to the mathematical difference modulo 2^64, and equal to it when it is in range |
| Java.WrapInt | src/org/mariotaku/twidere/model/ParcelableDirectMessage.java:64 | the `(int)` cast keeps the value modulo 2^32, and leaves an in-range value unchanged |
| Java.WrapIntMulAdd | src/org/mariotaku/twidere/model/ParcelableDirectMessage.java:186-187 | wrapping the intermediate `int` of `prime * result + h` does not change the final wrapped result |
| Android.Parcel.WriteLong | src/org/mariotaku/twidere/model/ParcelableDirectMessage.java:203-207 | `writeLong` appends one long value and leaves the read position alone |
| Android.Parcel.WriteInt | src/org/mariotaku/twidere/model/ParcelableDirectMessage.java:208 | `writeInt` appends one int value and leaves the read position alone |
| Android.Parcel.WriteString | src/org/mariotaku/twidere/model/ParcelableDirectMessage.java:209-216 | `writeString` appends one nullable string and leaves the read position alone |
| Android.Parcel.ReadLong | src/org/mariotaku/twidere/model/ParcelableDirectMessage.java:141-145 | `readLong` returns the value at the read position and moves one on, or returns 0 without moving at the end of the data |
| Android.Parcel.ReadInt | src/org/mariotaku/twidere/model/ParcelableDirectMessage.java:146 | `readInt` works the same way for an int |
| Android.Parcel.ReadString | src/org/mariotaku/twidere/model/ParcelableDirectMessage.java:147-154 | `readString` works the same way for a nullable string, giving null at the end of the data |
| Android.GetAsLong | src/org/mariotaku/twidere/model/ParcelableDirectMessage.java:84 | an absent key gives the supplied default |
| Android.GetAsBoolean | src/org/mariotaku/twidere/model/ParcelableDirectMessage.java:91 | an absent key gives the supplied default |
| Android.GetAsString | src/org/mariotaku/twidere/model/ParcelableDirectMessage.java:79-87 | an absent key gives null |
| Android.GetLong | src/org/mariotaku/twidere/model/ParcelableDirectMessage.java:96-101 | `getLong` succeeds exactly when the column is one the row has |
| Android.GetShort | src/org/mariotaku/twidere/model/ParcelableDirectMessage.java:97 | `getShort` succeeds exactly when the column is one the row has |
| Android.GetString | src/org/mariotaku/twidere/model/ParcelableDirectMessage.java:102-112 | `getString` succeeds exactly when the column is one the row has |
| DirectMessages.CompareTo | src/org/mariotaku/twidere/model/ParcelableDirectMessage.java:157-164 | `compareTo(null)` is 0 |
| DirectMessages.CompareToAgreesWithComparator | src/org/mariotaku/twidere/model/ParcelableDirectMessage.java:57-66 | for every non-null pair, `MESSAGE_ID_COMPARATOR.compare(a, b)` equals `a.compareTo(b)` |
| DirectMessages.CompareZeroIffSameId | src/org/mariotaku/twidere/model/ParcelableDirectMessage.java:60-64 | the comparison is 0 if and only if the message ids are equal, overflow or not |
| DirectMessages.CompareSign | src/org/mariotaku/twidere/model/ParcelableDirectMessage.java:60-64 | without 64-bit overflow the result is positive exactly when b's id is larger and negative exactly when it is smaller, so larger ids sort first |
| DirectMessages.CompareSaturates | src/org/mariotaku/twidere/model/ParcelableDirectMessage.java:60-64 | the result is the 64-bit wrapped difference clamped to the `int` range; the wrapped difference is congruent to the true difference modulo 2^64, and equal to it without overflow |
| DirectMessages.CompareWrapsOnOverflow | src/org/mariotaku/twidere/model/ParcelableDirectMessage.java:61 | ids `Long.MIN_VALUE` and 1 overflow the subtraction, and the smaller id then compares as the larger one |
| DirectMessages.CompareOrdersUsualIds | src/org/mariotaku/twidere/model/ParcelableDirectMessage.java:57-66 | on ids from -1 (the "unknown" id the defaulting constructors give) up to `Long.MAX_VALUE - 1` the subtraction never overflows, and the comparison is antisymmetric in sign and transitive |
| DirectMessages.CompareNotAntisymmetric | src/org/mariotaku/twidere/model/ParcelableDirectMessage.java:60-64 | over the whole `long` range the comparator is not antisymmetric: ids 0 and `Long.MIN_VALUE` each sort before the other |
| DirectMessages.CompareCycle | src/org/mariotaku/twidere/model/ParcelableDirectMessage.java:60-64 | nor transitive: ids 0, -1 and `Long.MIN_VALUE` sort before one another in a cycle |
| DirectMessages.EqualsIsIdentity | src/org/mariotaku/twidere/model/ParcelableDirectMessage.java:172-180 | `equals` holds if and only if the account ids and message ids match; null and other classes are never equal |
| DirectMessages.EqualsIsEquivalence | src/org/mariotaku/twidere/model/ParcelableDirectMessage.java:172-180 | `equals` is reflexive, symmetric and transitive |
| DirectMessages.CombineHashesClosedForm | src/org/mariotaku/twidere/model/ParcelableDirectMessage.java:183-189 | the two overflowing `31 * result + h` steps starting from 1 equal one wrap of `961 + 31*h1 + h2` |
| DirectMessages.LongHashOfSmall | src/org/mariotaku/twidere/model/ParcelableDirectMessage.java:186-187 | `(int) (x ^ x >>> 32)` leaves an id in `[0, Integer.MAX_VALUE]` unchanged |
| DirectMessages.LongHashOfMinusOne | src/org/mariotaku/twidere/model/ParcelableDirectMessage.java:186-187 | the fold of -1, the "unknown" id, is 0 |
| DirectMessages.EqualsImpliesSameHash | src/org/mariotaku/twidere/model/ParcelableDirectMessage.java:183-189 | equal records have equal hash codes |
| DirectMessages.DescribeContents | src/org/mariotaku/twidere/model/ParcelableDirectMessage.java:167-169 | `describeContents` returns `hashCode` |
| DirectMessages.DecodeEmpty | src/org/mariotaku/twidere/model/ParcelableDirectMessage.java:140-155 | reading a used-up parcel gives zero ids and timestamp, false and null strings, and consumes nothing |
| DirectMessages.DecodeEncode | src/org/mariotaku/twidere/model/ParcelableDirectMessage.java:140-155 | reading back the fourteen written values reproduces every field, null strings included, and consumes exactly those values, whatever follows them |
| DirectMessages.EncodeDecode | src/org/mariotaku/twidere/model/ParcelableDirectMessage.java:201-217 | fourteen values of the right kinds, whose int is 0 or 1, are exactly the encoding of the record read from them |
| DirectMessages.WriteToParcel | src/org/mariotaku/twidere/model/ParcelableDirectMessage.java:201-217 | `writeToParcel` appends five longs, the 1/0 flag and eight strings in field order; earlier contents and the read position stay unchanged |
| DirectMessages.EncodeAll | src/org/mariotaku/twidere/model/ParcelableDirectMessage.java:201-217 | records written one after another take fourteen values each |
| DirectMessages.DecodeAllEncodeAll | src/org/mariotaku/twidere/model/ParcelableDirectMessage.java:140-155 | each read consumes exactly the segment its record wrote, so records written back to back in one parcel are read back in order, whatever follows them |
| DirectMessages.ReadFromDecodes | src/org/mariotaku/twidere/model/ParcelableDirectMessage.java:140-155 | the fourteen reads, one position after another, yield the decoded record and advance by the number of values consumed |
| DirectMessages.FromParcel | src/org/mariotaku/twidere/model/ParcelableDirectMessage.java:140-155 | the `Parcel` constructor yields `Decode` of the values after the read position and advances past the values it consumed, at most fourteen |
| DirectMessages.WriteThenRead | src/org/mariotaku/twidere/model/ParcelableDirectMessage.java:140-155 | writing a record and then reading it back through the same parcel gives the record, and the reader ends at the end of the data |
| DirectMessages.ParcelRoundTrip | src/org/mariotaku/twidere/model/ParcelableDirectMessage.java:47-48 | `createFromParcel`, run on a fresh parcel that `writeToParcel` filled, gives the record |
| DirectMessages.FromContentValuesFields | src/org/mariotaku/twidere/model/ParcelableDirectMessage.java:78-93 | each field comes from its own key when the key is present; otherwise longs are -1, the flag is false and strings are null |
| DirectMessages.FromEmptyContentValues | src/org/mariotaku/twidere/model/ParcelableDirectMessage.java:78-93 | an empty bag gives the all-default record |
| DirectMessages.FromContentValuesOf | src/org/mariotaku/twidere/model/ParcelableDirectMessage.java:78-93 | a bag holding every field under its column gives the record back |
| DirectMessages.FromCursorOutcome | src/org/mariotaku/twidere/model/ParcelableDirectMessage.java:95-113 | when the indices fit the row: construction fails, with null unboxing, exactly when the `is_outgoing` index is -1; otherwise each long is -1 or read from its column, each string is null or read from its column (html from `text`), and the flag holds exactly when the short is 1 |
| DirectMessages.FromCursorWithoutFlag | src/org/mariotaku/twidere/model/ParcelableDirectMessage.java:96-97 | with fitting indices and no `is_outgoing` column, the account id is read and then unboxing the null flag throws |
| DirectMessages.FromCursorWithFlag | src/org/mariotaku/twidere/model/ParcelableDirectMessage.java:95-113 | with fitting indices and the `is_outgoing` column present, every field is -1, null or its column's value, and the flag is true exactly when the short is 1 |
| DirectMessages.FromCursorSucceedsIff | src/org/mariotaku/twidere/model/ParcelableDirectMessage.java:95-113 | construction succeeds exactly when every index is -1 or a column of the row, and the `is_outgoing` index is not -1 |
| DirectMessages.FromCursorMissingSender | src/org/mariotaku/twidere/model/ParcelableDirectMessage.java:100 | a missing sender column gives sender id -1 |
| DirectMessages.FromCursorBadAccountColumn | src/org/mariotaku/twidere/model/ParcelableDirectMessage.java:96 | an account index outside the row is the first getter to throw, and its error is the one reported |
| DirectMessages.FromCursorRowOf | src/org/mariotaku/twidere/model/ParcelableDirectMessage.java:95-113 | a row holding every field in the standard projection gives the record back |
| DirectMessages.GetTime | src/org/mariotaku/twidere/model/ParcelableDirectMessage.java:219-221 | a null date gives 0; otherwise the result is the date's milliseconds |
| DirectMessages.FromTwitterCopies | src/org/mariotaku/twidere/model/ParcelableDirectMessage.java:115-129 | the account id and flag are copied from the arguments; id, plain text and timestamp come from the message (0 for a null date); html is the formatter's output |
| DirectMessages.FromTwitterNoSender | src/org/mariotaku/twidere/model/ParcelableDirectMessage.java:119-135 | a null sender gives id -1 and null name and screen name; its image is null, or the rewriter's output for null when large images are asked for |
| DirectMessages.FromTwitterSender | src/org/mariotaku/twidere/model/ParcelableDirectMessage.java:119-135 | a present sender's id, name and screen name are copied; its image URL passes through the bigger-image rewriter exactly when large images are asked for |
| DirectMessages.FromTwitterRecipient | src/org/mariotaku/twidere/model/ParcelableDirectMessage.java:119-137 | the same holds for the recipient, whether it is null or present |

## Left out

- `toString`, which only formats a debug string.
- The `CREATOR.newArray` boilerplate, and `Serializable` with its `serialVersionUID`. These are runtime plumbing. `createFromParcel` is modelled only as a call to the `Parcel` constructor.
- Parcel bytes. The model does not capture alignment, the UTF-16 encoding of strings, or the exact byte layout of values. A parcel is a sequence of typed values.
- Android.Parcel.ReadLong: a read that meets a value of another kind gives 0. `ReadInt` and `ReadString` likewise give 0 and null. Android would instead reinterpret the bytes there.
- Android.Parcel.WriteLong: the model appends at the end while the read position is separate. Android's single data position is not modelled. Neither is writing into the middle of a parcel, or `setDataPosition`.
- `Utils.formatDirectMessageText` and `Utils.getBiggerTwitterProfileImage` are not part of this model. `FromTwitter` takes them as parameters, and the lemmas hold for any such functions.
- `Utils.parseString` is not part of this model. A user's `profileImageUrlHttps` stands for its text, or null for a null URL.
- The column-name strings of `TweetStore.DirectMessages` are replaced by an enumeration.
- The internals of `Utils.getAsLong` and `Utils.getAsBoolean`, such as type conversion of stored values, are left out. A present key gives a fixed reading per type.
- The `this == obj` shortcut of `equals` is not modelled apart: records are values, and an identical object has the same ids.
- DirectMessages.LongHashOfSmall: the lemma is stated for the id given by its bit pattern (`LongOfBits(b)` with `b <= Integer.MAX_VALUE`), not for the `long` value directly.
- DirectMessages.CompareSign: the lemma is stated only when the 64-bit subtraction does not overflow. With overflow the code does not order by id, and the comparator is then no valid `Comparator`: `CompareWrapsOnOverflow` shows a reversed pair, `CompareNotAntisymmetric` shows ids 0 and `Long.MIN_VALUE` each sorting before the other, and `CompareCycle` shows ids 0, -1 and `Long.MIN_VALUE` in a cycle. The model follows the code. Twitter ids are non-negative and the unknown id is -1, and on ids from -1 to `Long.MAX_VALUE - 1` the order is sound (`CompareOrdersUsualIds`), so this is not listed as a defect.
- Null arguments are not modelled. A null bag (line 79), a null index table or cursor (lines 96-97), a null message (line 119), a null `in` (line 141) or a null `out` (line 203) makes Java throw `NullPointerException`, but the model's arguments are values that cannot be null. Null fields inside a message (sender, recipient, date, strings) are modelled.
- Threads and the Android runtime are not modelled. The record is immutable, so nothing about concurrency needs stating.
