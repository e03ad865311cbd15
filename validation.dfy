/**
 * The DataAnnotations rules of UserAPISample2/Models/User.cs as predicates, with the
 * framework's reading of each attribute:
 *  - [Required] refuses null and strings made only of white space;
 *  - [StringLength], [EmailAddress], [Url] accept null;
 *  - [RegularExpression] accepts null and the empty string, and otherwise needs the pattern
 *    to match the whole string;
 *  - rules on a nested object apply only when that object is present.
 * The e-mail and URL grammars belong to the framework and are parameters (`FormatChecks`).
 */
module Validation {
  import opened Wrappers
  import opened Models
  import DecimalPattern

  /** `char.IsWhiteSpace`: the space separators, the line and paragraph separators,
      U+0009 to U+000D and U+0085. */
  predicate IsWhiteSpace(c: char) {
    || c == ' ' || '\t' <= c <= '\r' || c == '\U{85}' || c == '\U{A0}' || c == '\U{1680}'
    || '\U{2000}' <= c <= '\U{200A}' || c == '\U{2028}' || c == '\U{2029}'
    || c == '\U{202F}' || c == '\U{205F}' || c == '\U{3000}'
  }

  predicate IsBlank(s: string) {
    forall i :: 0 <= i < |s| ==> IsWhiteSpace(s[i])
  }

  /** [Required] */
  predicate RequiredOk(v: Option<string>) {
    v.Some? && !IsBlank(v.value)
  }

  /** [StringLength(max, MinimumLength = min)] */
  predicate StringLengthOk(v: Option<string>, min: nat, max: nat) {
    v.None? || min <= |v.value| <= max
  }

  /** [RegularExpression(@"^(-?\d+(\.\d+)?)$")] */
  predicate CoordinatePatternOk(v: Option<string>) {
    v.None? || v.value == [] || DecimalPattern.Matches(v.value)
  }

  /** The framework's [EmailAddress] and [Url] checks on a non-null string. */
  datatype FormatChecks = FormatChecks(isEmailAddress: string -> bool, isUrl: string -> bool)

  /** [EmailAddress] */
  predicate EmailAddressOk(checks: FormatChecks, v: Option<string>) {
    v.None? || checks.isEmailAddress(v.value)
  }

  /** [Url] */
  predicate UrlOk(checks: FormatChecks, v: Option<string>) {
    v.None? || checks.isUrl(v.value)
  }

  const NameMinLength: nat := 3
  const NameMaxLength: nat := 255
  const UsernameMinLength: nat := 3
  const UsernameMaxLength: nat := 25
  const CompanyNameMinLength: nat := 3
  const CompanyNameMaxLength: nat := 255

  predicate GeoValid(g: Geo) {
    && RequiredOk(g.lat) && CoordinatePatternOk(g.lat)
    && RequiredOk(g.lng) && CoordinatePatternOk(g.lng)
  }

  predicate CompanyValid(c: Company) {
    RequiredOk(c.name) && StringLengthOk(c.name, CompanyNameMinLength, CompanyNameMaxLength)
  }

  /** Every attribute of `User` and of its present nested objects holds. */
  predicate UserValid(checks: FormatChecks, u: User) {
    && RequiredOk(u.name) && StringLengthOk(u.name, NameMinLength, NameMaxLength)
    && RequiredOk(u.username) && StringLengthOk(u.username, UsernameMinLength, UsernameMaxLength)
    && RequiredOk(u.email) && EmailAddressOk(checks, u.email)
    && UrlOk(checks, u.website)
    && (u.address.Some? && u.address.value.geo.Some? ==> GeoValid(u.address.value.geo.value))
    && (u.company.Some? ==> CompanyValid(u.company.value))
  }

  /** The validated properties, named as the model-state keys name them. */
  datatype Field = Name | Username | Email | Website | AddressGeoLat | AddressGeoLng | CompanyName

  /** The attribute that failed. */
  datatype Rule = Required | StringLength | EmailAddress | Url | RegularExpression

  datatype FieldError = FieldError(field: Field, rule: Rule)

  function Check(holds: bool, field: Field, rule: Rule): seq<FieldError> {
    if holds then [] else [FieldError(field, rule)]
  }

  /** Attribute `rule` on `field` fails for `u`. The attributes of `Geo` and `Company`
      are checked only when the object is present. */
  predicate Fails(checks: FormatChecks, u: User, field: Field, rule: Rule) {
    var geo := u.address.Some? && u.address.value.geo.Some?;
    match field
    case Name =>
      || (rule == Required && !RequiredOk(u.name))
      || (rule == StringLength && !StringLengthOk(u.name, NameMinLength, NameMaxLength))
    case Username =>
      || (rule == Required && !RequiredOk(u.username))
      || (rule == StringLength && !StringLengthOk(u.username, UsernameMinLength, UsernameMaxLength))
    case Email =>
      || (rule == Required && !RequiredOk(u.email))
      || (rule == EmailAddress && !EmailAddressOk(checks, u.email))
    case Website =>
      rule == Url && !UrlOk(checks, u.website)
    case AddressGeoLat =>
      && geo
      && (|| (rule == Required && !RequiredOk(u.address.value.geo.value.lat))
          || (rule == RegularExpression && !CoordinatePatternOk(u.address.value.geo.value.lat)))
    case AddressGeoLng =>
      && geo
      && (|| (rule == Required && !RequiredOk(u.address.value.geo.value.lng))
          || (rule == RegularExpression && !CoordinatePatternOk(u.address.value.geo.value.lng)))
    case CompanyName =>
      && u.company.Some?
      && (|| (rule == Required && !RequiredOk(u.company.value.name))
          || (rule == StringLength &&
              !StringLengthOk(u.company.value.name, CompanyNameMinLength, CompanyNameMaxLength)))
  }

  /** The position of a field's group in the report, in the order the properties are declared. */
  function Group(f: Field): nat {
    match f
    case Name => 0
    case Username => 1
    case Email => 2
    case Website => 3
    case AddressGeoLat => 4
    case AddressGeoLng => 4
    case CompanyName => 5
  }

  /** `r` reports, once each, exactly the failing attributes of `u` on the fields of the
      groups `lo` to `hi - 1`. */
  ghost predicate Reports(checks: FormatChecks, u: User, lo: nat, hi: nat, r: seq<FieldError>) {
    && (forall e :: e in r <==> lo <= Group(e.field) < hi && Fails(checks, u, e.field, e.rule))
    && (forall i, j :: 0 <= i < j < |r| ==> r[i] != r[j])
  }

  /** Reports on adjacent groups put together report on both. */
  lemma ReportsConcat(checks: FormatChecks, u: User, lo: nat, mid: nat, hi: nat,
                      r: seq<FieldError>, r': seq<FieldError>)
    requires lo <= mid <= hi
    requires Reports(checks, u, lo, mid, r) && Reports(checks, u, mid, hi, r')
    ensures Reports(checks, u, lo, hi, r + r')
  {
    var both := r + r';
    forall i, j | 0 <= i < j < |both| ensures both[i] != both[j] {
      if i < |r| <= j {
        assert both[i] == r[i] && both[j] == r'[j - |r|];
        assert Group(r[i].field) < mid <= Group(r'[j - |r|].field);
      }
    }
  }

  function NameErrors(checks: FormatChecks, u: User): (r: seq<FieldError>)
    ensures Reports(checks, u, 0, 1, r)
  {
    Check(RequiredOk(u.name), Name, Required)
    + Check(StringLengthOk(u.name, NameMinLength, NameMaxLength), Name, StringLength)
  }

  function UsernameErrors(checks: FormatChecks, u: User): (r: seq<FieldError>)
    ensures Reports(checks, u, 1, 2, r)
  {
    Check(RequiredOk(u.username), Username, Required)
    + Check(StringLengthOk(u.username, UsernameMinLength, UsernameMaxLength), Username, StringLength)
  }

  function EmailErrors(checks: FormatChecks, u: User): (r: seq<FieldError>)
    ensures Reports(checks, u, 2, 3, r)
  {
    Check(RequiredOk(u.email), Email, Required) + Check(EmailAddressOk(checks, u.email), Email, EmailAddress)
  }

  function WebsiteErrors(checks: FormatChecks, u: User): (r: seq<FieldError>)
    ensures Reports(checks, u, 3, 4, r)
  {
    Check(UrlOk(checks, u.website), Website, Url)
  }

  /** The errors of `Address.Geo`, when the address and its `Geo` are present. */
  function GeoErrors(checks: FormatChecks, u: User): (r: seq<FieldError>)
    ensures Reports(checks, u, 4, 5, r)
  {
    if u.address.Some? && u.address.value.geo.Some? then
      var g := u.address.value.geo.value;
      Check(RequiredOk(g.lat), AddressGeoLat, Required)
      + Check(CoordinatePatternOk(g.lat), AddressGeoLat, RegularExpression)
      + Check(RequiredOk(g.lng), AddressGeoLng, Required)
      + Check(CoordinatePatternOk(g.lng), AddressGeoLng, RegularExpression)
    else
      []
  }

  /** The errors of `Company`, when it is present. */
  function CompanyErrors(checks: FormatChecks, u: User): (r: seq<FieldError>)
    ensures Reports(checks, u, 5, 6, r)
  {
    if u.company.Some? then
      Check(RequiredOk(u.company.value.name), CompanyName, Required)
      + Check(StringLengthOk(u.company.value.name, CompanyNameMinLength, CompanyNameMaxLength),
              CompanyName, StringLength)
    else
      []
  }

  /** A user is valid exactly when no attribute of it fails. */
  lemma ValidIffNothingFails(checks: FormatChecks, u: User)
    ensures UserValid(checks, u) <==> forall f: Field, rule: Rule :: !Fails(checks, u, f, rule)
  {
    if !UserValid(checks, u) {
      var geo := u.address.Some? && u.address.value.geo.Some?;
      if !RequiredOk(u.name) { assert Fails(checks, u, Name, Required); }
      else if !StringLengthOk(u.name, NameMinLength, NameMaxLength) { assert Fails(checks, u, Name, StringLength); }
      else if !RequiredOk(u.username) { assert Fails(checks, u, Username, Required); }
      else if !StringLengthOk(u.username, UsernameMinLength, UsernameMaxLength) {
        assert Fails(checks, u, Username, StringLength);
      }
      else if !RequiredOk(u.email) { assert Fails(checks, u, Email, Required); }
      else if !EmailAddressOk(checks, u.email) { assert Fails(checks, u, Email, EmailAddress); }
      else if !UrlOk(checks, u.website) { assert Fails(checks, u, Website, Url); }
      else if geo && !GeoValid(u.address.value.geo.value) {
        var g := u.address.value.geo.value;
        if !RequiredOk(g.lat) { assert Fails(checks, u, AddressGeoLat, Required); }
        else if !CoordinatePatternOk(g.lat) { assert Fails(checks, u, AddressGeoLat, RegularExpression); }
        else if !RequiredOk(g.lng) { assert Fails(checks, u, AddressGeoLng, Required); }
        else { assert Fails(checks, u, AddressGeoLng, RegularExpression); }
      } else {
        var c := u.company.value;
        if !RequiredOk(c.name) { assert Fails(checks, u, CompanyName, Required); }
        else { assert Fails(checks, u, CompanyName, StringLength); }
      }
    }
  }

  /** The groups' reports, in the order of the properties, together cover every group. */
  lemma GroupsReportAll(checks: FormatChecks, u: User)
    ensures Reports(checks, u, 0, 6,
                    NameErrors(checks, u) + UsernameErrors(checks, u) + EmailErrors(checks, u)
                    + WebsiteErrors(checks, u) + GeoErrors(checks, u) + CompanyErrors(checks, u))
  {
    var name := NameErrors(checks, u);
    var username := UsernameErrors(checks, u);
    var email := EmailErrors(checks, u);
    var website := WebsiteErrors(checks, u);
    var geo := GeoErrors(checks, u);
    ReportsConcat(checks, u, 0, 1, 2, name, username);
    ReportsConcat(checks, u, 0, 2, 3, name + username, email);
    ReportsConcat(checks, u, 0, 3, 4, name + username + email, website);
    ReportsConcat(checks, u, 0, 4, 5, name + username + email + website, geo);
    ReportsConcat(checks, u, 0, 5, 6, name + username + email + website + geo, CompanyErrors(checks, u));
  }

  /** A report on every group lists exactly the failures, and is empty exactly when the
      user is valid. */
  lemma ReportOnAllGroups(checks: FormatChecks, u: User, r: seq<FieldError>)
    requires Reports(checks, u, 0, 6, r)
    ensures forall e :: e in r <==> Fails(checks, u, e.field, e.rule)
    ensures r == [] <==> UserValid(checks, u)
  {
    ValidIffNothingFails(checks, u);
    if r != [] {
      assert r[0] in r;
    }
    if exists f: Field, rule: Rule :: Fails(checks, u, f, rule) {
      var f: Field, rule: Rule :| Fails(checks, u, f, rule);
      assert FieldError(f, rule) in r;
    }
  }

  /**
   * The model-state report: one entry for every attribute that fails, on every field,
   * not only the first, and no other entry; no entry appears twice. It is empty exactly
   * when the user is valid.
   */
  function Errors(checks: FormatChecks, u: User): (r: seq<FieldError>)
    ensures forall e :: e in r <==> Fails(checks, u, e.field, e.rule)
    ensures forall i, j :: 0 <= i < j < |r| ==> r[i] != r[j]
    ensures r == [] <==> UserValid(checks, u)
  {
    GroupsReportAll(checks, u);
    var r := NameErrors(checks, u) + UsernameErrors(checks, u) + EmailErrors(checks, u)
             + WebsiteErrors(checks, u) + GeoErrors(checks, u) + CompanyErrors(checks, u);
    ReportOnAllGroups(checks, u, r);
    r
  }

  /** A user without an e-mail address is reported under `Email` by [Required]. */
  lemma MissingEmailReported(checks: FormatChecks, u: User)
    requires u.email.None?
    ensures FieldError(Email, Required) in Errors(checks, u)
  {
  }

  /** A two-character user name is reported under `Username` by [StringLength]. */
  lemma ShortUsernameReported(checks: FormatChecks, u: User)
    requires u.username.Some? && |u.username.value| == 2
    ensures FieldError(Username, StringLength) in Errors(checks, u)
  {
  }

  /** A latitude "abc" is reported under `Address.Geo.Lat` by [RegularExpression]. */
  lemma NonNumericLatitudeReported(checks: FormatChecks, u: User)
    requires u.address.Some? && u.address.value.geo.Some? && u.address.value.geo.value.lat == Some("abc")
    ensures FieldError(AddressGeoLat, RegularExpression) in Errors(checks, u)
  {
    DecimalPattern.SamplesRejected();
  }

  /** A valid user has a non-blank name of 3 to 255 characters. */
  lemma ValidName(checks: FormatChecks, u: User)
    requires UserValid(checks, u)
    ensures u.name.Some? && u.name.value != [] && !IsBlank(u.name.value)
    ensures NameMinLength <= |u.name.value| <= NameMaxLength
  {
  }

  /** A valid user has a non-blank user name of 3 to 25 characters. */
  lemma ValidUsername(checks: FormatChecks, u: User)
    requires UserValid(checks, u)
    ensures u.username.Some? && u.username.value != [] && !IsBlank(u.username.value)
    ensures UsernameMinLength <= |u.username.value| <= UsernameMaxLength
  {
  }

  /** A valid user has a non-blank e-mail address that the framework's check accepts. */
  lemma ValidEmail(checks: FormatChecks, u: User)
    requires UserValid(checks, u)
    ensures u.email.Some? && !IsBlank(u.email.value) && checks.isEmailAddress(u.email.value)
  {
  }

  /** A null website never makes a user invalid; a present one must pass the URL check. */
  lemma WebsiteRule(checks: FormatChecks, u: User)
    ensures UserValid(checks, u) <==> UserValid(checks, u.(website := None)) && UrlOk(checks, u.website)
  {
  }

  /** The phone and the address strings carry no rule, and a user without an address is
      judged on the other fields alone. */
  lemma UnconstrainedFields(checks: FormatChecks, u: User, phone: Option<string>, street: Option<string>,
                            suite: Option<string>, city: Option<string>, zipcode: Option<string>)
    ensures UserValid(checks, u) <==> UserValid(checks, u.(phone := phone))
    ensures u.address.Some? ==>
      (UserValid(checks, u) <==>
       UserValid(checks, u.(address := Some(u.address.value.(street := street, suite := suite, city := city, zipcode := zipcode)))))
    ensures UserValid(checks, u) ==> UserValid(checks, u.(address := None))
  {
  }

  /** When a company is present its name is required with 3 to 255 characters; the catch
      phrase and the bs are free. */
  lemma CompanyRule(checks: FormatChecks, u: User, catchPhrase: Option<string>, bs: Option<string>)
    requires u.company.Some?
    ensures UserValid(checks, u) ==>
      var name := u.company.value.name;
      name.Some? && !IsBlank(name.value) && CompanyNameMinLength <= |name.value| <= CompanyNameMaxLength
    ensures UserValid(checks, u) <==>
      UserValid(checks, u.(company := Some(u.company.value.(catchPhrase := catchPhrase, bs := bs))))
    ensures UserValid(checks, u) ==> UserValid(checks, u.(company := None))
  {
  }

  /** A string of the coordinate language starts with a digit or a minus sign, so it is
      neither empty nor blank. */
  lemma DecimalIsNotBlank(s: string)
    requires DecimalPattern.Decimal(s)
    ensures s != [] && !IsBlank(s)
  {
    var body := if DecimalPattern.Unsigned(s) then s else s[1..];
    assert DecimalPattern.Unsigned(body);
    if !DecimalPattern.Digits(body) {
      var k :| 0 < k < |body| && body[k] == '.' && DecimalPattern.Digits(body[..k]) && DecimalPattern.Digits(body[k + 1..]);
      assert body[..k][0] == body[0];
    }
    assert DecimalPattern.IsDigit(body[0]);
    assert !IsWhiteSpace(s[0]);
  }

  /** One coordinate passes [Required] and [RegularExpression] exactly when it is present
      and reads `-?\d+(\.\d+)?`. */
  lemma CoordinateRule(v: Option<string>)
    ensures RequiredOk(v) && CoordinatePatternOk(v) <==> v.Some? && DecimalPattern.Decimal(v.value)
  {
    if v.Some? {
      DecimalPattern.MatchesIffDecimal(v.value);
      if DecimalPattern.Decimal(v.value) {
        DecimalIsNotBlank(v.value);
      }
    }
  }

  /** A present `Geo` is valid exactly when both coordinates are present and numeric. */
  lemma GeoRule(g: Geo)
    ensures GeoValid(g) <==>
      && g.lat.Some? && DecimalPattern.Decimal(g.lat.value)
      && g.lng.Some? && DecimalPattern.Decimal(g.lng.value)
  {
    CoordinateRule(g.lat);
    CoordinateRule(g.lng);
  }

  /** The user the controller tests post is valid whenever the framework accepts its
      e-mail address. */
  lemma SampleUserValid(checks: FormatChecks)
    requires checks.isEmailAddress("johndoe@example.com")
    ensures UserValid(checks, User(None, Some("John Doe"), Some("johndoe"), Some("johndoe@example.com"),
                                   None, None, None, None))
  {
    assert !IsWhiteSpace("John Doe"[0]);
    assert !IsWhiteSpace("johndoe"[0]);
    assert !IsWhiteSpace("johndoe@example.com"[0]);
  }
}
