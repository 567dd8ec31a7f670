/**
 * The request-body validators: each DTO property carries decorators, and the body is accepted
 * only when no decorator fails. Every failing decorator contributes its own message.
 */
module Validation {
  import opened Regex

  /** A property of the JSON body as the validator sees it. */
  datatype Value = Undefined | Null | Str(s: string) | Num(x: real) | Other

  /** The decorators the DTOs use. */
  datatype Rule =
    | IsNotEmpty
    | MinLength(min: nat)
    | MaxLength(max: nat)
    | Pattern(r: Regex)
    | IsNumber
    | IsInt

  datatype Violation = Violation(property: string, rule: Rule, message: string)

  /** One decorator with its message. */
  datatype Check = Check(rule: Rule, message: string)

  /**
   * Whether a value passes one decorator; the length and pattern rules accept only strings.
   * No decorator accepts a missing value: only `@IsOptional()` lets one through.
   */
  predicate Holds(rule: Rule, v: Value)
    ensures Holds(rule, v) ==> !Missing(v)
    ensures Holds(rule, v) && (rule.MinLength? || rule.MaxLength? || rule.Pattern?) ==> v.Str?
    ensures Holds(rule, v) && (rule.IsNumber? || rule.IsInt?) ==> v.Num?
  {
    match rule
    case IsNotEmpty => v != Undefined && v != Null && v != Str("")
    case MinLength(n) => v.Str? && |v.s| >= n
    case MaxLength(n) => v.Str? && |v.s| <= n
    case Pattern(r) => v.Str? && FullMatch(r, v.s)
    case IsNumber => v.Num?
    case IsInt => v.Num? && v.x.Floor as real == v.x
  }

  /** `null` and `undefined` count as missing, which `@IsOptional()` lets through unchecked. */
  predicate Missing(v: Value) {
    v.Undefined? || v.Null?
  }

  /** Every decorator in `checks` holds. */
  predicate AllHold(v: Value, checks: seq<Check>) {
    checks == [] || (Holds(checks[0].rule, v) && AllHold(v, checks[1..]))
  }

  /** The violations of the failing decorators among `checks`, one per decorator. */
  function Failing(name: string, v: Value, checks: seq<Check>): (r: set<Violation>)
    ensures forall w :: w in r ==> w.property == name
    ensures r == {} <==> AllHold(v, checks)
    ensures forall i :: 0 <= i < |checks| && !Holds(checks[i].rule, v) ==> Violation(name, checks[i].rule, checks[i].message) in r
    ensures forall w :: w in r ==> exists i :: 0 <= i < |checks| && !Holds(checks[i].rule, v) && w == Violation(name, checks[i].rule, checks[i].message)
  {
    if checks == [] then {}
    else
      (if Holds(checks[0].rule, v) then {} else {Violation(name, checks[0].rule, checks[0].message)})
      + Failing(name, v, checks[1..])
  }

  /** The violations of one property: every failing decorator, unless it is optional and missing. */
  function Property(name: string, v: Value, checks: seq<Check>, optional: bool): (r: set<Violation>)
    ensures forall w :: w in r ==> w.property == name
    ensures r == {} <==> (optional && Missing(v)) || AllHold(v, checks)
    ensures !(optional && Missing(v)) ==> r == Failing(name, v, checks)
  {
    if optional && Missing(v) then {} else Failing(name, v, checks)
  }

  /** `RegisterDto`, `CreateUserDto`. */
  datatype AccountBody = AccountBody(phone: Value, name: Value, password: Value)

  /** `LoginDto`. */
  datatype LoginBody = LoginBody(phone: Value, password: Value)

  /** `createNewsDto`, `updateNewsDto`. */
  datatype NewsBody = NewsBody(title: Value, content: Value, status: Value, ownerId: Value, categoryId: Value)

  /** `CreateCategoryDto`, `UpdateCategoryDto`. */
  datatype CategoryBody = CategoryBody(name: Value, description: Value)

  const PhoneInvalid := "Số điện thoại không hợp lệ"
  const PasswordTooShort := "Mật khẩu phải có ít nhất 6 ký tự"

  const PhoneChecks := [Check(IsNotEmpty, "Không bỏ trống số điện thoại!"), Check(Pattern(PhonePattern), PhoneInvalid)]
  const PasswordChecks := [Check(IsNotEmpty, "Mật khẩu không được bỏ trống"), Check(MinLength(6), PasswordTooShort)]

  /** The rules of `RegisterDto`: a violation names only one of its three properties. */
  function RegisterViolations(b: AccountBody): (r: set<Violation>)
    ensures forall w :: w in r ==> w.property in {"phone", "name", "password"}
  {
    Property("phone", b.phone, PhoneChecks, false)
    + Property("name", b.name, [Check(IsNotEmpty, "Không được bỏ trống tên!"), Check(MinLength(2), "Tên phải có ít nhất 2 ký tự")], false)
    + Property("password", b.password, PasswordChecks, false)
  }

  /** The rules of `LoginDto`. */
  function LoginViolations(b: LoginBody): (r: set<Violation>)
    ensures forall w :: w in r ==> w.property in {"phone", "password"}
  {
    Property("phone", b.phone, [Check(IsNotEmpty, "Số điện thoại không được bỏ trống"), Check(Pattern(PhonePattern), PhoneInvalid)], false)
    + Property("password", b.password, PasswordChecks, false)
  }

  const CreateUserNameChecks := [
    Check(IsNotEmpty, "Không được bỏ trống tên!"),
    Check(MinLength(6), "Tên phải có ít nhất 6 ký tự"),
    Check(MaxLength(30), "Tên không được vượt quá 30 ký tự")]

  /** The rules of `CreateUserDto`: the same phone and password rules as registration, a stricter name. */
  function CreateUserViolations(b: AccountBody): (r: set<Violation>)
    ensures forall w :: w in r ==> w.property in {"phone", "name", "password"}
  {
    Property("phone", b.phone, PhoneChecks, false)
    + Property("name", b.name, CreateUserNameChecks, false)
    + Property("password", b.password, [Check(IsNotEmpty, "Mật khẩu không được bỏ trống!"), Check(MinLength(6), PasswordTooShort)], false)
  }

  const CategoryIdChecks := [
    Check(IsInt, "Danh mục không hợp lệ"),
    Check(IsNumber, "Danh mục không hợp lệ"),
    Check(IsNotEmpty, "Danh mục bài viết không được bỏ trống")]

  /** The rules of `createNewsDto`; `updateNewsDto` repeats them decorator for decorator. */
  function NewsViolations(b: NewsBody): (r: set<Violation>)
    ensures forall w :: w in r ==> w.property in {"title", "status", "ownerId", "categoryId"}
  {
    Property("title", b.title, [Check(IsNotEmpty, "Tiêu đề không được bỏ trống"), Check(MaxLength(100), "Tiêu đề không được vượt quá 100 ký tự")], false)
    + Property("content", b.content, [], true)
    + Property("status", b.status, [Check(IsNumber, "Trạng thái không hợp lệ"), Check(IsInt, "Trạng thái không hợp lệ")], false)
    + Property("ownerId", b.ownerId, [Check(IsNumber, "Dữ liệu không hợp lệ"), Check(IsInt, "Dữ liệu không hợp lệ")], false)
    + Property("categoryId", b.categoryId, CategoryIdChecks, false)
  }

  /** The rules of `CreateCategoryDto`; `UpdateCategoryDto` repeats them. */
  function CategoryViolations(b: CategoryBody): (r: set<Violation>)
    ensures forall w :: w in r ==> w.property in {"name"}
  {
    Property("name", b.name, [Check(IsNotEmpty, "Không được bỏ trống tên danh mục!")], false)
    + Property("description", b.description, [], true)
  }

  predicate IsText(v: Value, min: nat) {
    v.Str? && |v.s| >= min
  }

  predicate IsPhone(v: Value) {
    v.Str? && IsVnMobile(v.s)
  }

  predicate IsInteger(v: Value) {
    v.Num? && v.x.Floor as real == v.x
  }

  /** Two decorators hold exactly when each of them does. */
  lemma PairIff(v: Value, c: seq<Check>)
    requires |c| == 2
    ensures AllHold(v, c) <==> Holds(c[0].rule, v) && Holds(c[1].rule, v)
  {
    assert AllHold(v, c[1..]) <==> Holds(c[1].rule, v) && AllHold(v, c[2..]);
  }

  /** A required phone with the mobile-number pattern admits exactly the mobile numbers, whatever the messages. */
  lemma PhoneRulesIff(v: Value, empty: string, invalid: string)
    ensures AllHold(v, [Check(IsNotEmpty, empty), Check(Pattern(PhonePattern), invalid)]) <==> IsPhone(v)
  {
    PairIff(v, [Check(IsNotEmpty, empty), Check(Pattern(PhonePattern), invalid)]);
    if v.Str? { PhonePatternIff(v.s); }
  }

  /** The `CreateUserDto` name rules admit exactly the strings of 6 to 30 characters. */
  lemma NameChecksIff(v: Value)
    ensures AllHold(v, CreateUserNameChecks) <==> IsText(v, 6) && |v.s| <= 30
  {
    var c := CreateUserNameChecks;
    assert AllHold(v, c) <==> Holds(c[0].rule, v) && AllHold(v, c[1..]);
    assert AllHold(v, c[1..]) <==> Holds(c[1].rule, v) && AllHold(v, c[2..]);
    assert AllHold(v, c[2..]) <==> Holds(c[2].rule, v) && AllHold(v, c[3..]);
  }

  /** The `categoryId` rules admit exactly the integers. */
  lemma CategoryIdChecksIff(v: Value)
    ensures AllHold(v, CategoryIdChecks) <==> IsInteger(v)
  {
    var c := CategoryIdChecks;
    assert AllHold(v, c) <==> Holds(c[0].rule, v) && AllHold(v, c[1..]);
    assert AllHold(v, c[1..]) <==> Holds(c[1].rule, v) && AllHold(v, c[2..]);
    assert AllHold(v, c[2..]) <==> Holds(c[2].rule, v) && AllHold(v, c[3..]);
  }

  /** A registration is accepted iff the phone is a mobile number, the name has 2+ characters and the password 6+. */
  lemma RegisterAccepts(b: AccountBody)
    ensures RegisterViolations(b) == {} <==> IsPhone(b.phone) && IsText(b.name, 2) && IsText(b.password, 6)
  {
    PhoneRulesIff(b.phone, "Không bỏ trống số điện thoại!", PhoneInvalid);
    PairIff(b.name, [Check(IsNotEmpty, "Không được bỏ trống tên!"), Check(MinLength(2), "Tên phải có ít nhất 2 ký tự")]);
    PairIff(b.password, PasswordChecks);
  }

  /** A login is accepted iff the phone is a mobile number and the password has 6+ characters. */
  lemma LoginAccepts(b: LoginBody)
    ensures LoginViolations(b) == {} <==> IsPhone(b.phone) && IsText(b.password, 6)
  {
    PhoneRulesIff(b.phone, "Số điện thoại không được bỏ trống", PhoneInvalid);
    PairIff(b.password, PasswordChecks);
  }

  /** An account is accepted iff the phone is a mobile number, the name has 6 to 30 characters and the password 6+. */
  lemma CreateUserAccepts(b: AccountBody)
    ensures CreateUserViolations(b) == {} <==>
      IsPhone(b.phone) && IsText(b.name, 6) && |b.name.s| <= 30 && IsText(b.password, 6)
  {
    PhoneRulesIff(b.phone, "Không bỏ trống số điện thoại!", PhoneInvalid);
    NameChecksIff(b.name);
  }

  /** The user-creation rules are stricter than the registration rules. */
  lemma CreateUserStricter(b: AccountBody)
    requires CreateUserViolations(b) == {}
    ensures RegisterViolations(b) == {}
  {
    CreateUserAccepts(b);
    RegisterAccepts(b);
  }

  /** Strictly so: with a valid phone and password, a two-letter name registers but is refused on user creation. */
  lemma ShortNameRegistersOnly(b: AccountBody)
    requires IsPhone(b.phone) && IsText(b.password, 6) && b.name == Str("An")
    ensures RegisterViolations(b) == {}
    ensures Violation("name", MinLength(6), "Tên phải có ít nhất 6 ký tự") in CreateUserViolations(b)
  {
    RegisterAccepts(b);
    assert !Holds(CreateUserNameChecks[1].rule, b.name);
  }

  /** A `categoryId` that is not a number fails two decorators with one message, and both are reported. */
  lemma NonNumberCategoryId(v: Value)
    requires !v.Num?
    ensures var r := Property("categoryId", v, CategoryIdChecks, false);
      && Violation("categoryId", IsInt, "Danh mục không hợp lệ") in r
      && Violation("categoryId", IsNumber, "Danh mục không hợp lệ") in r
      && |r| >= 2
  {
    var r := Property("categoryId", v, CategoryIdChecks, false);
    assert !Holds(CategoryIdChecks[0].rule, v) && !Holds(CategoryIdChecks[1].rule, v);
    var both := {Violation("categoryId", IsInt, "Danh mục không hợp lệ"), Violation("categoryId", IsNumber, "Danh mục không hợp lệ")};
    assert |both| == 2;
    assert both <= r;
  }

  /** A news body is accepted iff the title has 1 to 100 characters and the three ids are integers; `content` is free. */
  lemma NewsAccepts(b: NewsBody)
    ensures NewsViolations(b) == {} <==>
      IsText(b.title, 1) && |b.title.s| <= 100 && IsInteger(b.status) && IsInteger(b.ownerId) && IsInteger(b.categoryId)
  {
    PairIff(b.status, [Check(IsNumber, "Trạng thái không hợp lệ"), Check(IsInt, "Trạng thái không hợp lệ")]);
    PairIff(b.ownerId, [Check(IsNumber, "Dữ liệu không hợp lệ"), Check(IsInt, "Dữ liệu không hợp lệ")]);
    PairIff(b.title, [Check(IsNotEmpty, "Tiêu đề không được bỏ trống"), Check(MaxLength(100), "Tiêu đề không được vượt quá 100 ký tự")]);
    CategoryIdChecksIff(b.categoryId);
  }

  /** A category body is accepted iff the name is present and not the empty string; `description` is free. */
  lemma CategoryAccepts(b: CategoryBody)
    ensures CategoryViolations(b) == {} <==> !Missing(b.name) && b.name != Str("")
  {
  }

  /** A missing phone on registration reports both the emptiness and the pattern message. */
  lemma MissingPhoneMessages(b: AccountBody)
    requires b.phone == Undefined
    ensures Violation("phone", IsNotEmpty, "Không bỏ trống số điện thoại!") in RegisterViolations(b)
    ensures Violation("phone", Pattern(PhonePattern), PhoneInvalid) in RegisterViolations(b)
  {
    var p := Property("phone", b.phone, PhoneChecks, false);
    assert !Holds(PhoneChecks[0].rule, b.phone) && !Holds(PhoneChecks[1].rule, b.phone);
    assert p <= RegisterViolations(b);
  }
}
