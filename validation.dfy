/**
 * The server's input validators: delivery details, upload file names and
 * ratings. Each is a pure check over strings and numbers.
 */
module Validation {
  import opened Wrappers

  // ---------------------------------------------------------------------
  // Python's str.strip() and str.isdigit()

  /** The characters Python's str.isspace() accepts, by code point. */
  predicate IsSpace(c: char)
  {
    var n := c as int;
    (9 <= n <= 13) || (28 <= n <= 32) || n == 0x85 || n == 0xA0 || n == 0x1680 ||
    (0x2000 <= n <= 0x200A) || n == 0x2028 || n == 0x2029 || n == 0x202F ||
    n == 0x205F || n == 0x3000
  }

  /** The first position at or after `i` that does not hold whitespace, or the end. */
  function TextStart(s: string, i: nat): (r: nat)
    requires i <= |s|
    ensures i <= r <= |s|
    ensures forall j | i <= j < r :: IsSpace(s[j])
    ensures r == |s| || !IsSpace(s[r])
    decreases |s| - i
  {
    if i == |s| || !IsSpace(s[i]) then i else TextStart(s, i + 1)
  }

  /** The end of `s[lo..e]` once its trailing whitespace is dropped. */
  function TextEnd(s: string, lo: nat, e: nat): (r: nat)
    requires lo <= e <= |s|
    ensures lo <= r <= e
    ensures forall j | r <= j < e :: IsSpace(s[j])
    ensures r == lo || !IsSpace(s[r - 1])
    decreases e
  {
    if e == lo || !IsSpace(s[e - 1]) then e else TextEnd(s, lo, e - 1)
  }

  /** str.strip(): the text without its leading and trailing whitespace. */
  function Strip(s: string): (r: string)
    ensures |r| <= |s|
    ensures r == [] || (!IsSpace(r[0]) && !IsSpace(r[|r| - 1]))
  {
    var a := TextStart(s, 0);
    s[a..TextEnd(s, a, |s|)]
  }

  /**
   * strip() keeps a contiguous middle of the text, drops only whitespace
   * around it, and leaves no whitespace at either end.
   */
  lemma StripSlice(s: string)
    ensures exists a, b | 0 <= a <= b <= |s| ::
      Strip(s) == s[a..b] &&
      (forall i | 0 <= i < a :: IsSpace(s[i])) &&
      (forall i | b <= i < |s| :: IsSpace(s[i]))
    ensures Strip(s) == [] || (!IsSpace(Strip(s)[0]) && !IsSpace(Strip(s)[|Strip(s)| - 1]))
  {
    var a := TextStart(s, 0);
    var b := TextEnd(s, a, |s|);
    assert Strip(s) == s[a..b];
  }

  /** A stripped field is empty exactly when the input is all whitespace. */
  lemma StripEmpty(s: string)
    ensures Strip(s) == [] <==> forall i | 0 <= i < |s| :: IsSpace(s[i])
  {
    var a := TextStart(s, 0);
    var b := TextEnd(s, a, |s|);
    assert |Strip(s)| == b - a;
  }

  /** Stripping twice is stripping once. */
  lemma StripIdempotent(s: string)
    ensures Strip(Strip(s)) == Strip(s)
  {
    var r := Strip(s);
    StripSlice(s);
    if r != [] {
      assert TextStart(r, 0) == 0;
      assert TextEnd(r, 0, |r|) == |r|;
    }
  }

  predicate IsDigit(c: char)
  {
    '0' <= c <= '9'
  }

  /** str.isdigit(): at least one character, and every character a digit. */
  predicate IsDigits(s: string)
  {
    |s| > 0 && forall i | 0 <= i < |s| :: IsDigit(s[i])
  }

  // ---------------------------------------------------------------------
  // Delivery details

  /** The delivery details stored for a customer. */
  datatype DeliveryDetails = DeliveryDetails(name: string, address: string, pincode: string, phone: string)

  /** All four fields are filled in. */
  predicate AllFilled(d: DeliveryDetails)
  {
    d.name != "" && d.address != "" && d.pincode != "" && d.phone != ""
  }

  datatype DetailsError = MissingField | BadPincode | BadPhone

  function DetailsMessage(e: DetailsError): string
  {
    match e
    case MissingField => "All fields are required"
    case BadPincode => "Pincode must be 6 digits"
    case BadPhone => "Phone number must be 10 digits"
  }

  predicate ValidPincode(s: string)
  {
    IsDigits(s) && |s| == 6
  }

  predicate ValidPhone(s: string)
  {
    IsDigits(s) && |s| == 10
  }

  /**
   * The delivery-details update: every field is stripped; then, in this
   * order, all four must be non-empty, the pincode six digits and the phone
   * ten digits. The first failing check decides the error; on success the
   * stripped values are what is stored.
   */
  function ValidateDeliveryDetails(name: string, address: string, pincode: string, phone: string)
    : (r: Result<DeliveryDetails, DetailsError>)
    ensures var n, a, z, p := Strip(name), Strip(address), Strip(pincode), Strip(phone);
      (r.Ok? <==> n != "" && a != "" && z != "" && p != "" && ValidPincode(z) && ValidPhone(p)) &&
      (r.Ok? ==> r.value == DeliveryDetails(n, a, z, p)) &&
      (r == Err(MissingField) <==> !AllFilled(DeliveryDetails(n, a, z, p))) &&
      (r == Err(BadPincode) <==> n != "" && a != "" && z != "" && p != "" && !ValidPincode(z)) &&
      (r == Err(BadPhone) <==>
        n != "" && a != "" && z != "" && p != "" && ValidPincode(z) && !ValidPhone(p))
  {
    var n, a, z, p := Strip(name), Strip(address), Strip(pincode), Strip(phone);
    if n == "" || a == "" || z == "" || p == "" then Err(MissingField)
    else if !ValidPincode(z) then Err(BadPincode)
    else if !ValidPhone(p) then Err(BadPhone)
    else Ok(DeliveryDetails(n, a, z, p))
  }

  /** Accepted details are stored without surrounding whitespace and pass their own check again. */
  lemma ValidatedDetailsStable(name: string, address: string, pincode: string, phone: string)
    requires ValidateDeliveryDetails(name, address, pincode, phone).Ok?
    ensures var d := ValidateDeliveryDetails(name, address, pincode, phone).value;
      ValidateDeliveryDetails(d.name, d.address, d.pincode, d.phone) == Ok(d)
  {
    StripIdempotent(name);
    StripIdempotent(address);
    StripIdempotent(pincode);
    StripIdempotent(phone);
  }

  // ---------------------------------------------------------------------
  // Upload file names

  const AllowedExtensions: set<string> := {"png", "jpg", "jpeg", "gif", "webp"}

  /** ASCII lower-casing of one character. */
  function LowerChar(c: char): char
  {
    if 'A' <= c <= 'Z' then (c as int + 32) as char else c
  }

  function Lower(s: string): (r: string)
    ensures |r| == |s| && forall i | 0 <= i < |s| :: r[i] == LowerChar(s[i])
  {
    if s == [] then [] else [LowerChar(s[0])] + Lower(s[1..])
  }

  /** The position of the last '.' in the text, if there is one. */
  function LastDot(s: string): (r: Option<nat>)
    ensures r.None? <==> forall j | 0 <= j < |s| :: s[j] != '.'
    ensures r.Some? ==> r.value < |s| && s[r.value] == '.'
    ensures r.Some? ==> forall j | r.value < j < |s| :: s[j] != '.'
  {
    if s == [] then None
    else if s[|s| - 1] == '.' then Some(|s| - 1)
    else LastDot(s[..|s| - 1])
  }

  /**
   * allowed_file: the name contains a '.', and the text after the last
   * '.', lower-cased, is one of the image extensions.
   */
  function AllowedFile(filename: string): (ok: bool)
    ensures ok ==> LastDot(filename).Some? && 3 <= |filename| - 1 - LastDot(filename).value <= 4
  {
    match LastDot(filename)
    case None => false
    case Some(k) => Lower(filename[k + 1..]) in AllowedExtensions
  }

  /** No '.' follows position `k`. */
  predicate NoDotAfter(s: string, k: nat)
  {
    forall j | k < j < |s| :: s[j] != '.'
  }

  /**
   * A name is allowed exactly when it can be split at a '.' whose suffix
   * holds no further '.' and lower-cases to an image extension.
   */
  lemma AllowedFileIff(filename: string)
    ensures AllowedFile(filename) <==>
      exists k | 0 <= k < |filename| ::
        filename[k] == '.' && NoDotAfter(filename, k) && Lower(filename[k + 1..]) in AllowedExtensions
  {
  }

  /** Any base name followed by '.' and an image extension is allowed. */
  lemma AllowedFileWithExtension(base: string, ext: string)
    requires ext in AllowedExtensions
    ensures AllowedFile(base + "." + ext)
  {
    var f := base + "." + ext;
    var k := |base|;
    assert f[k] == '.';
    assert f[k + 1..] == ext;
    assert NoDotAfter(f, k);
    assert Lower(ext) == ext;
    AllowedFileIff(f);
  }

  /** A name without a '.' is never allowed. */
  lemma NoDotNotAllowed(filename: string)
    requires forall j | 0 <= j < |filename| :: filename[j] != '.'
    ensures !AllowedFile(filename)
  {
  }

  // ---------------------------------------------------------------------
  // Ratings

  /**
   * Customer feedback: the stripped name and email must be non-empty and
   * the rating between 1 and 5. So feedback is accepted exactly when the
   * name and the email each hold a character that is not whitespace.
   */
  function FeedbackAccepted(name: string, email: string, rating: int): (ok: bool)
    ensures ok <==>
      (exists i | 0 <= i < |name| :: !IsSpace(name[i])) &&
      (exists i | 0 <= i < |email| :: !IsSpace(email[i])) &&
      1 <= rating <= 5
  {
    StripEmpty(name);
    StripEmpty(email);
    !(Strip(name) == "" || Strip(email) == "" || rating < 1 || rating > 5)
  }

  /** Feedback whose name and email are already stripped gets the same verdict. */
  lemma FeedbackStripInvariant(name: string, email: string, rating: int)
    ensures FeedbackAccepted(Strip(name), Strip(email), rating) == FeedbackAccepted(name, email, rating)
  {
    StripIdempotent(name);
    StripIdempotent(email);
  }

  datatype RatingError = RatingRequired | RatingOutOfRange

  function RatingMessage(e: RatingError): string
  {
    match e
    case RatingRequired => "Product ID and rating required"
    case RatingOutOfRange => "Rating must be between 1 and 5"
  }

  /**
   * A product rating: a missing product id or a missing or zero rating
   * (both falsy) is reported first; otherwise the rating must be between 1
   * and 5. On success the rating is returned.
   */
  function ValidateRating(productId: string, rating: Option<int>): (r: Result<int, RatingError>)
    ensures r.Ok? ==> rating == Some(r.value) && 1 <= r.value <= 5
    ensures r.Ok? <==> productId != "" && rating.Some? && 1 <= rating.value <= 5
    ensures r == Err(RatingRequired) <==> productId == "" || rating.None? || rating == Some(0)
  {
    if productId == "" || rating.None? || rating.value == 0 then Err(RatingRequired)
    else if rating.value < 1 || rating.value > 5 then Err(RatingOutOfRange)
    else Ok(rating.value)
  }
}
