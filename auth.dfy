/**
  The front end's mock `AuthService`: registered users and the signed-in
  user live in memory; a phone number is stored in its formatted form
  (`+` and digits, a leading 8 turned into 7). The id (`crypto.randomUUID()`)
  and the time stamp (`new Date().toISOString()`) of a new user are
  arguments; the simulated network delays are not modelled.
 */
module Auth {
  import opened Wrappers
  import opened Text
  import Seqs

  datatype User = User(id: string, fullName: string, phoneNumber: string, createdAt: string, updatedAt: string)

  datatype AuthResponse = AuthResponse(success: bool, message: string, token: Option<string>, user: Option<User>)

  const InvalidPhoneMessage: string := "Неверный формат номера телефона"
  const UnknownPhoneMessage: string := "Пользователь с таким номером не найден"
  const OtpSentMessage: string := "OTP код отправлен"
  const WrongOtpMessage: string := "Неверный код подтверждения"
  const UserNotFoundMessage: string := "Пользователь не найден"
  const SignedInMessage: string := "Авторизация успешна"
  const NameRequiredMessage: string := "Имя обязательно для заполнения"
  const DuplicatePhoneMessage: string := "Пользователь с таким номером уже существует"
  const RegisteredMessage: string := "Регистрация успешна. SMS с кодом отправлен"

  /** The one code `verifyOtp` accepts. */
  const MockOtp: string := "1111"
  const MockToken: string := "mock-token"

  function Fail(message: string): AuthResponse {
    AuthResponse(false, message, None, None)
  }

  predicate AllDigits(s: string) {
    forall k :: 0 <= k < |s| ==> IsDigit(s[k])
  }

  /** `phone.replace(/\D/g, '')`: the ASCII digits, in order. */
  function Digits(s: string): (r: string)
    ensures |r| <= |s|
    ensures AllDigits(r)
    ensures r == s <==> AllDigits(s)
  {
    if s == [] then []
    else (if IsDigit(s[0]) then [s[0]] else []) + Digits(s[1..])
  }

  /** What `formatPhoneNumber` computes: '+', then the digits with a leading 8 turned into 7. */
  function FormattedPhone(phone: string): (r: string)
    ensures |r| == |Digits(phone)| + 1
    ensures r[0] == '+' && AllDigits(r[1..])
    ensures |r| > 1 ==> r[1] != '8'
  {
    var d := Digits(phone);
    "+" + (if StartsWith(d, "8") then "7" + d[1..] else d)
  }

  /** `formatPhoneNumber` */
  method FormatPhoneNumber(phone: string) returns (phoneNumber: string)
    ensures phoneNumber == FormattedPhone(phone)
  {
    phoneNumber := Digits(phone);
    if StartsWith(phoneNumber, "8") {
      phoneNumber := "7" + phoneNumber[1..];
    }
    if !StartsWith(phoneNumber, "+") {
      phoneNumber := "+" + phoneNumber;
    }
  }

  /** `/^(\+7|8)[0-9]{10}$/` */
  predicate IsValidPhone(phone: string) {
    || (|phone| == 12 && phone[..2] == "+7" && AllDigits(phone[2..]))
    || (|phone| == 11 && phone[0] == '8' && AllDigits(phone[1..]))
  }

  /** A number is valid exactly when it is `+7` or `8` followed by its last ten characters, all digits. */
  lemma ValidPhoneShape(phone: string)
    ensures IsValidPhone(phone) <==>
      |phone| >= 10 && AllDigits(phone[|phone| - 10..]) &&
      (phone == "+7" + phone[|phone| - 10..] || phone == "8" + phone[|phone| - 10..])
  {
    if |phone| >= 10 {
      var d := phone[|phone| - 10..];
      if phone == "+7" + d {
        assert phone[..2] == "+7" && phone[2..] == d;
      } else if phone == "8" + d {
        assert phone[1..] == d;
      }
    }
    if IsValidPhone(phone) {
      if |phone| == 12 {
        assert phone == phone[..2] + phone[2..];
      } else {
        assert phone == [phone[0]] + phone[1..];
      }
    }
  }

  /** The shape of a stored phone number: '+', then digits that do not start with 8. */
  predicate IsFormatted(phone: string) {
    |phone| >= 1 && phone[0] == '+' && AllDigits(phone[1..]) && (|phone| > 1 ==> phone[1] != '8')
  }

  lemma {:induction false} DigitsAppend(a: string, b: string)
    ensures Digits(a + b) == Digits(a) + Digits(b)
  {
    if a != [] {
      var head: string := if IsDigit(a[0]) then [a[0]] else [];
      assert (a + b)[0] == a[0] && (a + b)[1..] == a[1..] + b;
      DigitsAppend(a[1..], b);
      assert Digits(a + b) == head + Digits(a[1..] + b);
      Seqs.AppendAssoc(head, Digits(a[1..]), Digits(b));
    } else {
      assert a + b == b;
    }
  }

  /** Appending one character keeps the earlier digits and adds the character iff it is a digit. */
  lemma {:induction false} DigitsSnoc(s: string, c: char)
    ensures Digits(s + [c]) == Digits(s) + (if IsDigit(c) then [c] else [])
  {
    DigitsAppend(s, [c]);
    assert Digits([c]) == (if IsDigit(c) then [c] else []) + Digits([]);
  }

  /** A number of the stored shape is left as it is by formatting. */
  lemma FormattedFixed(phone: string)
    requires IsFormatted(phone)
    ensures FormattedPhone(phone) == phone
  {
    var d := phone[1..];
    assert phone == "+" + d;
    assert Digits("+") == [] + Digits([]);
    DigitsAppend("+", d);
    assert Digits(phone) == d;
    assert !StartsWith(d, "8") by {
      if |d| > 0 {
        assert d[0] == phone[1];
      }
    }
  }

  /**
    A number has the stored shape exactly when formatting leaves it
    unchanged, so formatting twice is formatting once.
   */
  lemma FormatIdempotent(phone: string)
    ensures IsFormatted(phone) <==> FormattedPhone(phone) == phone
    ensures FormattedPhone(FormattedPhone(phone)) == FormattedPhone(phone)
  {
    if IsFormatted(phone) {
      FormattedFixed(phone);
    }
    FormattedFixed(FormattedPhone(phone));
  }

  /** A valid number formats to +7 and its ten subscriber digits. */
  lemma ValidPhoneFormat(phone: string)
    requires IsValidPhone(phone)
    ensures FormattedPhone(phone) == "+7" + phone[|phone| - 10..]
  {
    var tail := phone[|phone| - 10..];
    if |phone| == 12 {
      assert phone == "+7" + tail;
      DigitsAppend("+7", tail);
      assert Digits("+7") == "7" by {
        assert "+7"[1..] == "7";
        assert Digits("7") == "7" + Digits([]);
      }
    } else {
      assert phone == "8" + tail;
      DigitsAppend("8", tail);
      assert Digits("8") == "8" + Digits([]);
      assert Digits(phone) == "8" + tail;
      assert Digits(phone)[1..] == tail;
    }
  }

  /**
    `+7XXXXXXXXXX` and `8XXXXXXXXXX` are the same subscriber: both are valid
    and format to the same stored number, so registering the second after
    the first is a duplicate.
   */
  lemma SameSubscriberSameKey(tenDigits: string)
    requires |tenDigits| == 10 && AllDigits(tenDigits)
    ensures IsValidPhone("+7" + tenDigits) && IsValidPhone("8" + tenDigits)
    ensures FormattedPhone("+7" + tenDigits) == FormattedPhone("8" + tenDigits) == "+7" + tenDigits
  {
    assert ("+7" + tenDigits)[2..] == tenDigits;
    assert ("8" + tenDigits)[1..] == tenDigits;
    ValidPhoneFormat("+7" + tenDigits);
    ValidPhoneFormat("8" + tenDigits);
    assert ("+7" + tenDigits)[2..] == ("8" + tenDigits)[1..] == tenDigits;
  }

  /** Some stored user has the number. */
  predicate HasPhone(users: seq<User>, phone: string) {
    exists i :: 0 <= i < |users| && users[i].phoneNumber == phone
  }

  /** `mockUsers.find(u => u.phoneNumber === phone)`: the first user with that number. */
  function FindUser(users: seq<User>, phone: string): (r: Option<User>)
    ensures r.Some? <==> HasPhone(users, phone)
    ensures r.Some? ==> r.value in users && r.value.phoneNumber == phone
  {
    if users == [] then None
    else if users[0].phoneNumber == phone then Some(users[0])
    else
      var r := FindUser(users[1..], phone);
      assert forall i :: 1 <= i < |users| ==> users[i] == users[1..][i - 1];
      r
  }

  /** The user found is the first one stored under the number. */
  lemma {:induction false} FindUserFirst(users: seq<User>, phone: string)
    requires FindUser(users, phone).Some?
    ensures exists i :: 0 <= i < |users| && users[i] == FindUser(users, phone).value &&
                        forall j :: 0 <= j < i ==> users[j].phoneNumber != phone
  {
    if users[0].phoneNumber != phone {
      FindUserFirst(users[1..], phone);
      var i :| 0 <= i < |users[1..]| && users[1..][i] == FindUser(users[1..], phone).value &&
        forall j :: 0 <= j < i ==> users[1..][j].phoneNumber != phone;
      assert users[i + 1] == FindUser(users, phone).value;
      forall j | 0 <= j < i + 1
        ensures users[j].phoneNumber != phone
      {
        if j > 0 { assert users[j] == users[1..][j - 1]; }
      }
    } else {
      assert users[0] == FindUser(users, phone).value;
    }
  }

  /** Stored numbers are formatted and distinct. */
  ghost predicate UsersOk(users: seq<User>) {
    && (forall i :: 0 <= i < |users| ==> IsFormatted(users[i].phoneNumber))
    && (forall i, j :: 0 <= i < j < |users| ==> users[i].phoneNumber != users[j].phoneNumber)
  }

  /** Appending a user under a new formatted number keeps the users consistent. */
  lemma UsersOkSnoc(users: seq<User>, u: User)
    requires UsersOk(users) && IsFormatted(u.phoneNumber)
    requires FindUser(users, u.phoneNumber).None?
    ensures UsersOk(users + [u])
  {
    var s := users + [u];
    forall i | 0 <= i < |s|
      ensures IsFormatted(s[i].phoneNumber)
    {
      if i < |users| {
        assert s[i] == users[i];
      }
    }
    forall i, j | 0 <= i < j < |s|
      ensures s[i].phoneNumber != s[j].phoneNumber
    {
      assert s[i] == users[i];
      if j < |users| {
        assert s[j] == users[j];
      }
    }
  }

  /** A user registered under a new formatted number keeps the users, and the signed-in one, consistent. */
  lemma RegisterKeepsUsersOk(users: seq<User>, current: Option<User>, phone: string, u: User)
    requires UsersOk(users) && (current.Some? ==> current.value in users)
    requires u.phoneNumber == FormattedPhone(phone) && FindUser(users, u.phoneNumber).None?
    ensures UsersOk(users + [u]) && (current.Some? ==> current.value in users + [u])
  {
    UsersOkSnoc(users, u);
  }

  /** The module-level `mockUsers` array and `currentUser` variable. */
  class AuthStore {
    var mockUsers: seq<User>
    var currentUser: Option<User>

    /** Stored numbers are formatted and distinct; the signed-in user is a stored one. */
    ghost predicate Valid()
      reads this
    {
      && UsersOk(mockUsers)
      && (currentUser.Some? ==> currentUser.value in mockUsers)
    }

    constructor()
      ensures mockUsers == [] && currentUser.None? && Valid()
    {
      mockUsers := [];
      currentUser := None;
    }

    /** `login`: checks the number and that it is registered; signs nobody in. */
    method Login(phoneNumber: string) returns (r: AuthResponse)
      ensures !IsValidPhone(phoneNumber) ==> r == Fail(InvalidPhoneMessage)
      ensures IsValidPhone(phoneNumber) ==>
        r == (if HasPhone(mockUsers, FormattedPhone(phoneNumber))
              then AuthResponse(true, OtpSentMessage, None, None)
              else Fail(UnknownPhoneMessage))
    {
      if !IsValidPhone(phoneNumber) {
        return Fail(InvalidPhoneMessage);
      }
      var formattedPhone := FormatPhoneNumber(phoneNumber);
      var user := FindUser(mockUsers, formattedPhone);
      if user.None? {
        return Fail(UnknownPhoneMessage);
      }
      r := AuthResponse(true, OtpSentMessage, None, None);
    }

    /**
      `verifyOtp`: only the code 1111 for a registered number signs the
      user in. The number is formatted but not validated.
     */
    method VerifyOtp(phoneNumber: string, otp: string) returns (r: AuthResponse)
      requires Valid()
      modifies this
      ensures Valid() && mockUsers == old(mockUsers)
      ensures otp != MockOtp ==> r == Fail(WrongOtpMessage) && currentUser == old(currentUser)
      ensures otp == MockOtp ==>
        var user := FindUser(mockUsers, FormattedPhone(phoneNumber));
        && (user.None? ==> r == Fail(UserNotFoundMessage) && currentUser == old(currentUser))
        && (user.Some? ==> r == AuthResponse(true, SignedInMessage, Some(MockToken), user) && currentUser == user)
      ensures r.success <==> currentUser != old(currentUser) || (r.user.Some? && r.user == old(currentUser))
    {
      if otp != MockOtp {
        return Fail(WrongOtpMessage);
      }
      var formattedPhone := FormatPhoneNumber(phoneNumber);
      var user := FindUser(mockUsers, formattedPhone);
      if user.None? {
        return Fail(UserNotFoundMessage);
      }
      currentUser := user;
      r := AuthResponse(true, SignedInMessage, Some(MockToken), user);
    }

    /**
      `register`: a non-blank name and a valid, not yet registered number
      add exactly one user, stored under the formatted number; nobody is
      signed in.
     */
    method Register(fullName: string, phoneNumber: string, id: string, now: string) returns (r: AuthResponse)
      requires Valid()
      modifies this
      ensures Valid() && currentUser == old(currentUser)
      ensures IsBlank(fullName) ==> r == Fail(NameRequiredMessage) && mockUsers == old(mockUsers)
      ensures !IsBlank(fullName) && !IsValidPhone(phoneNumber) ==> r == Fail(InvalidPhoneMessage) && mockUsers == old(mockUsers)
      ensures !IsBlank(fullName) && IsValidPhone(phoneNumber) ==>
        var formatted := FormattedPhone(phoneNumber);
        if HasPhone(old(mockUsers), formatted) then
          r == Fail(DuplicatePhoneMessage) && mockUsers == old(mockUsers)
        else
          r == AuthResponse(true, RegisteredMessage, None, None)
          && mockUsers == old(mockUsers) + [User(id, fullName, formatted, now, now)]
    {
      if IsBlank(fullName) {
        return Fail(NameRequiredMessage);
      }
      if !IsValidPhone(phoneNumber) {
        return Fail(InvalidPhoneMessage);
      }
      var formattedPhone := FormatPhoneNumber(phoneNumber);
      var existingUser := FindUser(mockUsers, formattedPhone);
      if existingUser.Some? {
        return Fail(DuplicatePhoneMessage);
      }
      var newUser := User(id, fullName, formattedPhone, now, now);
      RegisterKeepsUsersOk(mockUsers, currentUser, phoneNumber, newUser);
      mockUsers := mockUsers + [newUser];
      r := AuthResponse(true, RegisteredMessage, None, None);
    }

    /** `logout` */
    method Logout()
      requires Valid()
      modifies this
      ensures Valid() && mockUsers == old(mockUsers) && currentUser.None?
    {
      currentUser := None;
    }
  }
}
