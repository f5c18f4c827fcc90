/**
 * Values shared by the product and user handlers: the error values the handlers
 * return, field-level validation violations, and the 12-byte BSON ObjectId with
 * its 24-digit hexadecimal text form.
 */
module Common {

  datatype Option<+T> = None | Some(value: T)

  datatype Result<+T, +E> = Ok(value: T) | Err(error: E)

  /** One failed validator tag on one struct field, e.g. Violation("Price", "max"). */
  datatype Violation = Violation(field: string, tag: string)

  /**
   * The errors the handlers hand back to the HTTP framework. The product handlers
   * return the driver's and the validator's errors unchanged; the user handlers wrap
   * theirs in an HTTP error with an explicit status code and message.
   */
  datatype Error =
    | InvalidHex                                  // ObjectIDFromHex rejected its argument (wrong length or a bad digit)
    | NoDocuments                                 // the driver's "no documents in result"
    | StoreFault                                  // any other failure reported by the store
    | DuplicateKey                                // a write rejected by a unique index
    | ImmutableField                              // an update that would change a document's _id
    | PayloadUndecodable                          // the JSON request body could not be decoded
    | BindFailed                                  // the framework could not bind the request body
    | ValidationFailed(violations: seq<Violation>) // the struct validator's error
    | SigningFailed                               // the token could not be signed
    | Http(code: int, message: string)            // an HTTP error built by the handler itself

  newtype byte = x: int | 0 <= x < 256

  /** A BSON ObjectId: exactly 12 bytes. */
  type ObjectId = s: seq<byte> | |s| == 12 witness [0, 0, 0, 0, 0, 0, 0, 0, 0, 0, 0, 0]

  /** The zero ObjectId, which BSON's omitempty treats as absent. */
  const NilObjectId: ObjectId := [0, 0, 0, 0, 0, 0, 0, 0, 0, 0, 0, 0]

  /**
   * A new ObjectId, as the driver generates one (timestamp, process and counter
   * bytes). Nothing is promised about its value: uniqueness is enforced by the
   * store's index on _id, not by the generator.
   */
  method NewObjectId() returns (id: ObjectId)
  {
    id := *;
  }

  /** The value of a hexadecimal digit; both letter cases are accepted. */
  function HexValue(c: char): (r: Option<nat>)
    ensures r.Some? ==> r.value < 16
  {
    if '0' <= c <= '9' then Some(c as nat - '0' as nat)
    else if 'a' <= c <= 'f' then Some(c as nat - 'a' as nat + 10)
    else if 'A' <= c <= 'F' then Some(c as nat - 'A' as nat + 10)
    else None
  }

  predicate IsHexDigit(c: char) {
    HexValue(c).Some?
  }

  predicate AllHexDigits(s: string) {
    forall i :: 0 <= i < |s| ==> IsHexDigit(s[i])
  }

  /** Lower-case digit for a value below 16. */
  function HexChar(n: nat): (c: char)
    requires n < 16
    ensures HexValue(c) == Some(n)
  {
    if n < 10 then ('0' as nat + n) as char else ('a' as nat + n - 10) as char
  }

  /** Decodes pairs of hexadecimal digits, high digit first. */
  function DecodeHex(s: string): (r: Option<seq<byte>>)
    requires |s| % 2 == 0
    ensures r.Some? <==> AllHexDigits(s)
    ensures r.Some? ==> 2 * |r.value| == |s|
    decreases |s|
  {
    if s == [] then Some([])
    else
      var hi, lo, rest := HexValue(s[0]), HexValue(s[1]), DecodeHex(s[2..]);
      if hi.Some? && lo.Some? && rest.Some? then
        Some([(hi.value * 16 + lo.value) as byte] + rest.value)
      else
        assert !IsHexDigit(s[0]) || !IsHexDigit(s[1]) || !AllHexDigits(s[2..]);
        None
  }

  /** Lower-case hexadecimal text of a byte sequence, two digits per byte. */
  function EncodeHex(bs: seq<byte>): (s: string)
    ensures |s| == 2 * |bs|
  {
    if bs == [] then [] else [HexChar(bs[0] as nat / 16), HexChar(bs[0] as nat % 16)] + EncodeHex(bs[1..])
  }

  lemma {:induction false} DecodeEncodeHex(bs: seq<byte>)
    ensures DecodeHex(EncodeHex(bs)) == Some(bs)
  {
    if bs != [] {
      var s := EncodeHex(bs);
      assert s[2..] == EncodeHex(bs[1..]);
      DecodeEncodeHex(bs[1..]);
      var b := bs[0] as nat;
      assert HexValue(s[0]) == Some(b / 16) && HexValue(s[1]) == Some(b % 16);
      assert ((b / 16) * 16 + b % 16) as byte == bs[0];
      assert [bs[0]] + bs[1..] == bs;
    }
  }

  /**
   * primitive.ObjectIDFromHex: exactly 24 characters, all hexadecimal digits;
   * anything else is rejected with an error.
   */
  function ObjectIdFromHex(s: string): (r: Result<ObjectId, Error>)
    ensures r.Ok? <==> |s| == 24 && AllHexDigits(s)
    ensures r.Err? ==> r.error == InvalidHex
  {
    if |s| != 24 then Err(InvalidHex)
    else match DecodeHex(s)
      case Some(bs) => Ok(bs)
      case None => Err(InvalidHex)
  }

  /** ObjectID.Hex: the 24 lower-case digits of an ObjectId. */
  function Hex(id: ObjectId): (s: string)
    ensures |s| == 24 && AllHexDigits(s)
  {
    var s := EncodeHex(id);
    DecodeEncodeHex(id);
    s
  }

  /** Every ObjectId survives printing and parsing back. */
  lemma HexRoundTrip(id: ObjectId)
    ensures ObjectIdFromHex(Hex(id)) == Ok(id)
  {
    DecodeEncodeHex(id);
  }
}
