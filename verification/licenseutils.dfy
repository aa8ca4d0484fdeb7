/**
 * The licence server's helpers: key format, tier from a product name,
 * subscription expiry, licence validity and the two reply shapes.
 * Instants are milliseconds since the epoch, passed in by the caller.
 */
module LicenseUtils {
  import W = Wrappers
  import Text
  import opened Models

  // ---------- Licence keys ----------

  /** The 31 symbols of a key group: no 0/O or 1/I/L. */
  const Alphabet: string := "23456789ABCDEFGHJKMNPQRSTUVWXYZ"

  const GroupLength: nat := 4

  function KeyPrefix(tier: Tier): (p: string)
    ensures p == "LIFE" || p == "PRO"
  {
    if tier == Lifetime then "LIFE" else "PRO"
  }

  /** Twelve draws from the symbol generator, each an index into the alphabet. */
  predicate ValidDraws(draws: seq<nat>) {
    |draws| == 3 * GroupLength && forall i :: 0 <= i < |draws| ==> draws[i] < |Alphabet|
  }

  function Group(draws: seq<nat>, g: nat): (s: string)
    requires ValidDraws(draws) && g < 3
    ensures |s| == GroupLength && forall i :: 0 <= i < GroupLength ==> s[i] == Alphabet[draws[GroupLength * g + i]]
  {
    var b := GroupLength * g;
    [Alphabet[draws[b]], Alphabet[draws[b + 1]], Alphabet[draws[b + 2]], Alphabet[draws[b + 3]]]
  }

  /**
   * `generateLicenseKey`: the prefix and three four-symbol groups, joined by
   * '-'. The random generator is an oracle whose draws are passed in.
   */
  function GenerateLicenseKey(tier: Tier, draws: seq<nat>): string
    requires ValidDraws(draws)
  {
    KeyPrefix(tier) + "-" + Group(draws, 0) + "-" + Group(draws, 1) + "-" + Group(draws, 2)
  }

  /** A group holds only alphabet symbols, so never the separator. */
  lemma GroupSymbols(draws: seq<nat>, g: nat)
    requires ValidDraws(draws) && g < 3
    ensures forall c :: c in Group(draws, g) ==> c in Alphabet
    ensures '-' !in Group(draws, g)
  {
    assert '-' !in Alphabet;
  }

  lemma SplitFour(p: string, a: string, b: string, c: string, sep: char)
    requires sep !in p && sep !in a && sep !in b && sep !in c
    ensures Text.Split(p + [sep] + a + [sep] + b + [sep] + c, sep) == [p, a, b, c]
  {
    var r1 := b + [sep] + c;
    var r0 := a + [sep] + r1;
    Text.SplitLast(c, sep);
    Text.SplitField(b, sep, c);
    Text.SplitField(a, sep, r1);
    Text.SplitField(p, sep, r0);
    assert p + [sep] + a + [sep] + b + [sep] + c == p + [sep] + r0;
  }

  /** A key splits at '-' into its prefix and three groups of alphabet symbols. */
  lemma KeyFields(tier: Tier, draws: seq<nat>)
    requires ValidDraws(draws)
    ensures Text.Split(GenerateLicenseKey(tier, draws), '-') == [KeyPrefix(tier), Group(draws, 0), Group(draws, 1), Group(draws, 2)]
  {
    GroupSymbols(draws, 0);
    GroupSymbols(draws, 1);
    GroupSymbols(draws, 2);
    assert '-' !in KeyPrefix(tier);
    SplitFour(KeyPrefix(tier), Group(draws, 0), Group(draws, 1), Group(draws, 2), '-');
  }

  /** The tier a key announces: lifetime keys start with "LIFE-", every other key is pro. */
  function KeyTier(key: string): (t: Tier)
    ensures t != Free
  {
    if "LIFE-" <= key then Lifetime else Pro
  }

  /** A generated key announces the tier it was generated for (free keys, never generated, read as pro). */
  lemma KeyTierRoundTrip(tier: Tier, draws: seq<nat>)
    requires ValidDraws(draws)
    ensures KeyTier(GenerateLicenseKey(tier, draws)) == if tier == Lifetime then Lifetime else Pro
  {
    var key := GenerateLicenseKey(tier, draws);
    if tier == Lifetime {
      assert key[..5] == "LIFE-";
    } else {
      assert key[0] == 'P';
    }
  }

  // ---------- Webhook signature ----------

  /** How `timingSafeEqual` ends: equal, unequal, or thrown because the buffers differ in length. */
  datatype SignatureCheck = Match | Mismatch | LengthMismatch

  /**
   * `verifyWebhookSignature`: the signature against the hex HMAC digest of
   * the body (the digest itself is an input). A signature of another length
   * makes the comparison throw rather than answer false.
   */
  function VerifyWebhookSignature(signature: string, digest: string): (c: SignatureCheck)
    ensures c == LengthMismatch <==> |signature| != |digest|
    ensures c == Match <==> signature == digest
  {
    if |signature| != |digest| then LengthMismatch
    else if signature == digest then Match
    else Mismatch
  }

  /** A missing signature, read as `''`, never matches a non-empty digest: the comparison throws. */
  lemma EmptySignatureThrows(digest: string)
    requires digest != ""
    ensures VerifyWebhookSignature("", digest) == LengthMismatch
  {
  }

  // ---------- Tier from the product ----------

  /** The name consulted: the variant's unless it is missing or empty (`variantName || productName`). */
  function ProductLabel(productName: string, variantName: W.Option<string>): string {
    if variantName.Some? && variantName.value != "" then variantName.value else productName
  }

  /** `parseTierFromProduct`: lifetime exactly when the lower-cased label mentions "lifetime". */
  function ParseTierFromProduct(productName: string, variantName: W.Option<string>): (t: Tier)
    ensures t != Free
    ensures t == Lifetime <==> Text.Contains(Text.ToLowerAscii(ProductLabel(productName, variantName)), "lifetime")
  {
    if Text.Contains(Text.ToLowerAscii(ProductLabel(productName, variantName)), "lifetime") then Lifetime else Pro
  }

  /** A variant name mentioning "Lifetime" gives a lifetime tier. */
  lemma LifetimeVariant()
    ensures ParseTierFromProduct("Chrono", W.Some("Lifetime Access")) == Lifetime
  {
    assert Text.ToLowerAscii("Lifetime Access") == "lifetime access";
    assert "lifetime" <= "lifetime access";
  }

  /** Without a variant name (or with an empty one) the product name decides, in any case. */
  lemma LifetimeProduct()
    ensures ParseTierFromProduct("Chrono LIFETIME", W.None) == Lifetime
    ensures ParseTierFromProduct("Chrono LIFETIME", W.Some("")) == Lifetime
  {
    assert Text.ToLowerAscii("Chrono LIFETIME") == "chrono " + "lifetime" + "";
    Text.ContainsAfter("chrono ", "lifetime", "");
  }

  /** A non-empty variant name overrides the product name. */
  lemma VariantOverrides()
    ensures ParseTierFromProduct("Chrono Lifetime", W.Some("Monthly")) == Pro
  {
    assert Text.ToLowerAscii("Monthly") == "monthly";
    Text.ContainsAt("monthly", "lifetime");
  }

  // ---------- Expiry and validity ----------

  const DayMillis: int := 86_400_000

  /** The grace period after a renewal date: three days. */
  const GraceMillis: int := 3 * DayMillis

  /** `calculateExpiryDate`: the end date if there is one, else the renewal date plus grace, else none. */
  function CalculateExpiryDate(renewsAt: W.Option<int>, endsAt: W.Option<int>): (e: W.Option<int>)
    ensures endsAt.Some? ==> e == endsAt
    ensures endsAt.None? && renewsAt.Some? ==> e == W.Some(renewsAt.value + GraceMillis)
    ensures e.None? <==> endsAt.None? && renewsAt.None?
  {
    match endsAt
    case Some(t) => W.Some(t)
    case None =>
      match renewsAt
      case Some(r) => W.Some(r + GraceMillis)
      case None => W.None
  }

  datatype Status = Active | Expired | Revoked

  function StatusName(s: Status): string {
    match s
    case Active => "active"
    case Expired => "expired"
    case Revoked => "revoked"
  }

  /** `isLicenseValid`: neither revoked nor expired, and not past a recorded expiry. */
  predicate IsLicenseValid(status: Status, expiresAt: W.Option<int>, now: int) {
    if status == Revoked then false
    else if status == Expired then false
    else if expiresAt.Some? && expiresAt.value < now then false
    else true
  }

  /** Validity in full: active, with no expiry or one not yet passed; the expiry instant itself is still valid. */
  lemma ValidityMeaning(status: Status, expiresAt: W.Option<int>, now: int)
    ensures IsLicenseValid(status, expiresAt, now) <==> status == Active && (expiresAt.None? || now <= expiresAt.value)
  {
  }

  /** A licence valid now was valid at every earlier instant. */
  lemma ValidityAntitone(status: Status, expiresAt: W.Option<int>, earlier: int, now: int)
    requires earlier <= now && IsLicenseValid(status, expiresAt, now)
    ensures IsLicenseValid(status, expiresAt, earlier)
  {
  }

  // ---------- Replies ----------

  /** A reply: an `{ error }` body or a data body, with its HTTP status. */
  datatype Response<B> = ErrorReply(status: int, error: string) | SuccessReply(status: int, data: B)

  /** `errorResponse`: status 400 unless another is given. */
  function ErrorResponse<B>(message: string, status: int := 400): (r: Response<B>)
    ensures r.ErrorReply? && r.error == message && r.status == status
  {
    ErrorReply(status, message)
  }

  /** `successResponse`: status 200 unless another is given. */
  function SuccessResponse<B>(data: B, status: int := 200): (r: Response<B>)
    ensures r.SuccessReply? && r.data == data && r.status == status
  {
    SuccessReply(status, data)
  }

  lemma DefaultStatuses<B>(message: string, data: B)
    ensures ErrorResponse<B>(message).status == 400
    ensures SuccessResponse(data).status == 200
  {
  }
}
