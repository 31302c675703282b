/** The creator-profile form of the onboarding page: the validator that fills
    an error dictionary field by field, the list of demo links built on
    submit, and the submit button's gate.

    The schemas `Url`, `Number` and `Address` the validator calls are not part
    of this model; they enter as the predicates of a `Checks` value. The price
    check goes through `parseFloat`, so its two outcomes (whether `Number`
    accepts `parseFloat(price)`, and whether that number is positive) enter the
    same way. */
module OnboardProfile {
  import opened Wrappers
  import opened JsNumber

  /** The form's fields, which are also the keys of the error dictionary. */
  datatype Field =
    | Bio | UserName | ProfilePicture | DeliveryTime | Price
    | Demo1 | Demo2 | Demo3 | TweetUrl | Address

  /** The text the user typed into each field. */
  datatype ProfileValues = ProfileValues(
    bio: string,
    userName: string,
    profilePicture: string,
    deliveryTime: string,
    price: string,
    tweetUrl: string,
    address: string,
    demo1: string,
    demo2: string,
    demo3: string)

  /** The outside checks the validator consults. */
  datatype Checks = Checks(
    url: iset<string>,            // the texts `Url.parse` accepts
    number: iset<IntOrNaN>,       // the values `Number.parse` accepts
    address: iset<string>,        // the texts `Address.parse` accepts
    priceIsNumber: iset<string>,  // prices for which `Number.parse(parseFloat(price))` succeeds
    pricePositive: iset<string>)  // prices for which `parseFloat(price) > 0`

  /** The fixed messages the validator can leave on a key. */
  datatype Message =
    | BioEmpty | UserNameEmpty | PictureEmpty | PictureNotUrl
    | DeliveryNotCanonical | DeliveryNotPositive | DeliveryNotNumber | LinkInvalid
    | PriceNotPositive | PriceNotNumber | TweetEmpty | TweetNotUrl
    | AddressInvalid

  /** The wording shown for each message. */
  function Text(m: Message): string {
    match m
    case BioEmpty => "Please enter a bio."
    case UserNameEmpty => "Username cannot be empty."
    case PictureEmpty => "Profile picture can not be empty."
    case PictureNotUrl => "Profile picture must be an url."
    case DeliveryNotCanonical => "Delivery time cannot be a decimal or have leading zeros."
    case DeliveryNotPositive => "Delivery time must be greater than 0 days."
    case DeliveryNotNumber => "Delivery time is not a number."
    case LinkInvalid => "This link is invalid."
    case PriceNotPositive => "Price must be greater than 0."
    case PriceNotNumber => "Price is not a number."
    case TweetEmpty => "Tweet url can not be empty."
    case TweetNotUrl => "Tweet url must be an url."
    case AddressInvalid => "Please enter a valid address."
  }

  const FixErrors := "Please fix the errors."

  /** The entry of `errors` at `f`, or `undefined`. */
  function Lookup(errors: map<Field, Message>, f: Field): Option<Message> {
    if f in errors then Some(errors[f]) else None
  }

  /** The delivery-time rule stated by priority rather than by overwriting:
      a rejected number wins, then a non-positive one, then a form that
      `toString` does not reproduce (leading zeros, a decimal part, a sign,
      white space, a hexadecimal prefix). */
  function DeliveryTimeError(s: string, number: iset<IntOrNaN>): (m: Option<Message>)
    ensures m.Some? ==> m.value in {DeliveryNotNumber, DeliveryNotPositive, DeliveryNotCanonical}
    ensures m.None? ==> ParseInt(s) in number && NumberToString(ParseInt(s)) == s
  {
    var d := ParseInt(s);
    if d !in number then Some(DeliveryNotNumber)
    else if d.Int? && d.value <= 0 then Some(DeliveryNotPositive)
    else if NumberToString(d) != s then Some(DeliveryNotCanonical)
    else None
  }

  /** A link field may be left empty; otherwise it must be a URL. */
  function LinkError(link: string, c: Checks): Option<Message> {
    if link != "" && link !in c.url then Some(LinkInvalid) else None
  }

  /** The key each message is written under: a link message under any of
      the three demo keys, every other message under one key of its own. */
  predicate Belongs(f: Field, m: Message) {
    match m
    case BioEmpty => f == Bio
    case UserNameEmpty => f == UserName
    case PictureEmpty | PictureNotUrl => f == ProfilePicture
    case DeliveryNotCanonical | DeliveryNotPositive | DeliveryNotNumber => f == DeliveryTime
    case LinkInvalid => f == Demo1 || f == Demo2 || f == Demo3
    case PriceNotPositive | PriceNotNumber => f == Price
    case TweetEmpty | TweetNotUrl => f == TweetUrl
    case AddressInvalid => f == Address
  }

  /** The message the validator leaves on each key, field by field. */
  function FieldError(f: Field, v: ProfileValues, hasAccount: bool, c: Checks): (m: Option<Message>)
    ensures hasAccount && f == TweetUrl ==> m.None?
  {
    match f
    case Bio => if v.bio == "" then Some(BioEmpty) else None
    case UserName => if v.userName == "" then Some(UserNameEmpty) else None
    case ProfilePicture =>
      if v.profilePicture == "" then Some(PictureEmpty)
      else if v.profilePicture !in c.url then Some(PictureNotUrl)
      else None
    case DeliveryTime => DeliveryTimeError(v.deliveryTime, c.number)
    case Price =>
      if v.price !in c.priceIsNumber then Some(PriceNotNumber)
      else if v.price !in c.pricePositive then Some(PriceNotPositive)
      else None
    case Demo1 => LinkError(v.demo1, c)
    case Demo2 => LinkError(v.demo2, c)
    case Demo3 => LinkError(v.demo3, c)
    case TweetUrl =>
      if hasAccount then None
      else if v.tweetUrl == "" then Some(TweetEmpty)
      else if v.tweetUrl !in c.url then Some(TweetNotUrl)
      else None
    case Address => if v.address !in c.address then Some(AddressInvalid) else None
  }

  /** A field only ever gets one of its own messages. */
  lemma FieldErrorBelongs(f: Field, v: ProfileValues, hasAccount: bool, c: Checks)
    ensures FieldError(f, v, hasAccount, c).Some? ==> Belongs(f, FieldError(f, v, hasAccount, c).value)
  {
  }

  /** The form passes validation: no field has a message. */
  ghost predicate FormValid(v: ProfileValues, hasAccount: bool, c: Checks) {
    forall f :: FieldError(f, v, hasAccount, c).None?
  }

  /** The position of each field's check in the validator. */
  function Order(f: Field): (i: nat)
    ensures i < 10
  {
    match f
    case Bio => 0
    case UserName => 1
    case ProfilePicture => 2
    case DeliveryTime => 3
    case Demo1 => 4
    case Demo2 => 5
    case Demo3 => 6
    case Price => 7
    case TweetUrl => 8
    case Address => 9
  }

  /** Each field's expected outcome, in the validator's order. */
  ghost function Expected(v: ProfileValues, hasAccount: bool, c: Checks): (want: seq<Option<Message>>)
    ensures |want| == 10
  {
    [FieldError(Bio, v, hasAccount, c), FieldError(UserName, v, hasAccount, c),
                 FieldError(ProfilePicture, v, hasAccount, c), FieldError(DeliveryTime, v, hasAccount, c),
                 FieldError(Demo1, v, hasAccount, c), FieldError(Demo2, v, hasAccount, c),
                 FieldError(Demo3, v, hasAccount, c), FieldError(Price, v, hasAccount, c),
                 FieldError(TweetUrl, v, hasAccount, c), FieldError(Address, v, hasAccount, c)]
  }

  /** The expected outcome at each step, in the form each check computes it. */
  lemma ExpectedSteps(v: ProfileValues, hasAccount: bool, c: Checks)
    ensures var want := Expected(v, hasAccount, c);
      && want[0] == (if v.bio != "" then None else Some(BioEmpty))
      && want[1] == (if v.userName != "" then None else Some(UserNameEmpty))
      && want[2] == (if v.profilePicture == "" then Some(PictureEmpty)
                     else if v.profilePicture !in c.url then Some(PictureNotUrl) else None)
      && want[3] == DeliveryTimeError(v.deliveryTime, c.number)
      && want[4] == (if v.demo1 == "" || v.demo1 in c.url then None else Some(LinkInvalid))
      && want[5] == (if v.demo2 == "" || v.demo2 in c.url then None else Some(LinkInvalid))
      && want[6] == (if v.demo3 == "" || v.demo3 in c.url then None else Some(LinkInvalid))
      && want[7] == (if v.price !in c.priceIsNumber then Some(PriceNotNumber)
                     else if v.price !in c.pricePositive then Some(PriceNotPositive) else None)
      && (!hasAccount ==> want[8] == (if v.tweetUrl == "" then Some(TweetEmpty)
                                      else if v.tweetUrl !in c.url then Some(TweetNotUrl) else None))
      && (hasAccount ==> want[8] == None)
      && want[9] == (if v.address in c.address then None else Some(AddressInvalid))
  {
  }

  /** Position `Order(f)` of the expected outcomes belongs to field `f`. */
  lemma ExpectedInOrder(v: ProfileValues, hasAccount: bool, c: Checks)
    ensures forall f :: Expected(v, hasAccount, c)[Order(f)] == FieldError(f, v, hasAccount, c)
  {
    forall f ensures Expected(v, hasAccount, c)[Order(f)] == FieldError(f, v, hasAccount, c) {
      match f
      case Bio => case UserName => case ProfilePicture => case DeliveryTime => case Demo1 =>
      case Demo2 => case Demo3 => case Price => case TweetUrl => case Address =>
    }
  }

  /** After the first `done` checks: exactly those fields that failed their
      check carry their message, and no other key is set. */
  ghost predicate Agrees(errors: map<Field, Message>, want: seq<Option<Message>>, done: nat) {
    forall f :: Lookup(errors, f) == if Order(f) < done && Order(f) < |want| then want[Order(f)] else None
  }

  /** Once every check has run, the dictionary holds each field's message
      and is empty exactly when the form is valid. */
  lemma ValidatedAll(errors: map<Field, Message>, v: ProfileValues, hasAccount: bool, c: Checks)
    requires Agrees(errors, Expected(v, hasAccount, c), 10)
    ensures forall f :: Lookup(errors, f) == FieldError(f, v, hasAccount, c)
    ensures hasAccount ==> TweetUrl !in errors
    ensures errors == map[] <==> FormValid(v, hasAccount, c)
  {
    ExpectedInOrder(v, hasAccount, c);
    assert Lookup(errors, TweetUrl) == FieldError(TweetUrl, v, hasAccount, c);
    if errors == map[] {
      forall f ensures FieldError(f, v, hasAccount, c).None? {
        assert Lookup(errors, f).None?;
      }
    } else {
      var f :| f in errors;
      assert Lookup(errors, f).Some?;
    }
  }

  /** `if (!ok) errors[f] = m`: one check of the validator. */
  method Reject(errors: map<Field, Message>, ok: bool, f: Field, m: Message,
                ghost want: seq<Option<Message>>, ghost done: nat)
    returns (updated: map<Field, Message>)
    requires Agrees(errors, want, done) && Order(f) == done
    requires done < |want| && want[done] == if ok then None else Some(m)
    ensures Agrees(updated, want, done + 1)
  {
    updated := errors;
    if !ok {
      updated := updated[f := m];
    }
  }

  /** The check shared by the profile picture and the tweet URL: empty gets
      one message, a text `Url` rejects gets the other. */
  method RequireUrl(errors: map<Field, Message>, text: string, c: Checks, f: Field, empty: Message, notUrl: Message,
                    ghost want: seq<Option<Message>>, ghost done: nat)
    returns (updated: map<Field, Message>)
    requires Agrees(errors, want, done) && Order(f) == done
    requires done < |want| && want[done] == if text == "" then Some(empty) else if text !in c.url then Some(notUrl) else None
    ensures Agrees(updated, want, done + 1)
  {
    updated := errors;
    if text == "" {
      updated := updated[f := empty];
    } else if text !in c.url {
      updated := updated[f := notUrl];
    }
  }

  /** The delivery-time block: inside the `try`, the format message is set
      first and the "greater than 0" message may then replace it; a rejected
      number lands in the `catch`. */
  method CheckDeliveryTime(errors: map<Field, Message>, deliveryTime: string, c: Checks,
                           ghost want: seq<Option<Message>>, ghost done: nat)
    returns (updated: map<Field, Message>)
    requires Agrees(errors, want, done) && Order(DeliveryTime) == done
    requires done < |want| && want[done] == DeliveryTimeError(deliveryTime, c.number)
    ensures Agrees(updated, want, done + 1)
  {
    updated := errors;
    var dTime := ParseInt(deliveryTime);
    if dTime in c.number {
      if NumberToString(dTime) != deliveryTime {
        updated := updated[DeliveryTime := DeliveryNotCanonical];
      }
      if dTime.Int? && dTime.value <= 0 {
        updated := updated[DeliveryTime := DeliveryNotPositive];
      }
    } else {
      updated := updated[DeliveryTime := DeliveryNotNumber];
    }
  }

  /** The price block: `Number` rejecting `parseFloat(price)` lands in the
      `catch`; otherwise a price that is not above zero gets its message. */
  method CheckPrice(errors: map<Field, Message>, price: string, c: Checks,
                    ghost want: seq<Option<Message>>, ghost done: nat)
    returns (updated: map<Field, Message>)
    requires Agrees(errors, want, done) && Order(Price) == done
    requires done < |want| && want[done] == if price !in c.priceIsNumber then Some(PriceNotNumber)
                           else if price !in c.pricePositive then Some(PriceNotPositive) else None
    ensures Agrees(updated, want, done + 1)
  {
    updated := errors;
    if price !in c.priceIsNumber {
      updated := updated[Price := PriceNotNumber];
    } else if price !in c.pricePositive {
      updated := updated[Price := PriceNotPositive];
    }
  }

  /** A check that leaves its key alone when it expects no message. */
  lemma Skipped(errors: map<Field, Message>, want: seq<Option<Message>>, done: nat)
    requires Agrees(errors, want, done) && done < |want| && want[done] == None
    ensures Agrees(errors, want, done + 1)
  {
  }

  /** The first three checks: bio, user name and profile picture. */
  method CheckIdentity(errors: map<Field, Message>, v: ProfileValues, ghost hasAccount: bool, c: Checks)
    returns (updated: map<Field, Message>)
    requires Agrees(errors, Expected(v, hasAccount, c), 0)
    ensures Agrees(updated, Expected(v, hasAccount, c), 3)
  {
    ghost var want := Expected(v, hasAccount, c);
    ExpectedSteps(v, hasAccount, c);
    updated := Reject(errors, v.bio != "", Bio, BioEmpty, want, 0);
    updated := Reject(updated, v.userName != "", UserName, UserNameEmpty, want, 1);
    updated := RequireUrl(updated, v.profilePicture, c, ProfilePicture, PictureEmpty, PictureNotUrl, want, 2);
  }

  /** The next four: delivery time and the three demo links. */
  method CheckDeliveryAndDemos(errors: map<Field, Message>, v: ProfileValues, ghost hasAccount: bool, c: Checks)
    returns (updated: map<Field, Message>)
    requires Agrees(errors, Expected(v, hasAccount, c), 3)
    ensures Agrees(updated, Expected(v, hasAccount, c), 7)
  {
    ghost var want := Expected(v, hasAccount, c);
    ExpectedSteps(v, hasAccount, c);
    updated := CheckDeliveryTime(errors, v.deliveryTime, c, want, 3);
    updated := Reject(updated, v.demo1 == "" || v.demo1 in c.url, Demo1, LinkInvalid, want, 4);
    updated := Reject(updated, v.demo2 == "" || v.demo2 in c.url, Demo2, LinkInvalid, want, 5);
    updated := Reject(updated, v.demo3 == "" || v.demo3 in c.url, Demo3, LinkInvalid, want, 6);
  }

  /** The last three: price, the tweet URL (only without an account) and
      the address. */
  method CheckPriceTweetAndAddress(errors: map<Field, Message>, v: ProfileValues, hasAccount: bool, c: Checks)
    returns (updated: map<Field, Message>)
    requires Agrees(errors, Expected(v, hasAccount, c), 7)
    ensures Agrees(updated, Expected(v, hasAccount, c), 10)
  {
    ghost var want := Expected(v, hasAccount, c);
    ExpectedSteps(v, hasAccount, c);
    updated := CheckPrice(errors, v.price, c, want, 7);
    if !hasAccount {
      updated := RequireUrl(updated, v.tweetUrl, c, TweetUrl, TweetEmpty, TweetNotUrl, want, 8);
    } else {
      Skipped(updated, want, 8);
    }
    updated := Reject(updated, v.address in c.address, Address, AddressInvalid, want, 9);
  }

  /** The validator: starts from an empty dictionary and sets one key per
      failed check, in the source's order, so that a later assignment to the
      same key replaces an earlier one. */
  method Validate(v: ProfileValues, hasAccount: bool, c: Checks) returns (errors: map<Field, Message>)
    ensures forall f :: Lookup(errors, f) == FieldError(f, v, hasAccount, c)
    ensures hasAccount ==> TweetUrl !in errors
    ensures errors == map[] <==> FormValid(v, hasAccount, c)
  {
    errors := map[];
    errors := CheckIdentity(errors, v, hasAccount, c);
    errors := CheckDeliveryAndDemos(errors, v, hasAccount, c);
    errors := CheckPriceTweetAndAddress(errors, v, hasAccount, c);
    ValidatedAll(errors, v, hasAccount, c);
  }

  /** Every check passes: bio, user name and picture present, the picture
      a URL, the delivery time accepted, every non-empty demo a URL, the
      price a positive number, the tweet URL present and a URL unless the
      user already has an account, and the address valid. */
  ghost predicate ChecksPass(v: ProfileValues, hasAccount: bool, c: Checks) {
    && v.bio != "" && v.userName != ""
    && v.profilePicture != "" && v.profilePicture in c.url
    && DeliveryTimeError(v.deliveryTime, c.number).None?
    && (v.demo1 == "" || v.demo1 in c.url)
    && (v.demo2 == "" || v.demo2 in c.url)
    && (v.demo3 == "" || v.demo3 in c.url)
    && v.price in c.priceIsNumber && v.price in c.pricePositive
    && (hasAccount || (v.tweetUrl != "" && v.tweetUrl in c.url))
    && v.address in c.address
  }

  /** A valid form passes every check. */
  lemma ValidPassesChecks(v: ProfileValues, hasAccount: bool, c: Checks)
    requires FormValid(v, hasAccount, c)
    ensures ChecksPass(v, hasAccount, c)
  {
    assert FieldError(Bio, v, hasAccount, c).None?;
    assert FieldError(UserName, v, hasAccount, c).None?;
    assert FieldError(ProfilePicture, v, hasAccount, c).None?;
    assert FieldError(DeliveryTime, v, hasAccount, c).None?;
    assert FieldError(Price, v, hasAccount, c).None?;
    assert FieldError(Demo1, v, hasAccount, c).None?;
    assert FieldError(Demo2, v, hasAccount, c).None?;
    assert FieldError(Demo3, v, hasAccount, c).None?;
    assert FieldError(TweetUrl, v, hasAccount, c).None?;
    assert FieldError(Address, v, hasAccount, c).None?;
  }

  /** A form that passes every check is valid. */
  lemma ChecksPassValid(v: ProfileValues, hasAccount: bool, c: Checks)
    requires ChecksPass(v, hasAccount, c)
    ensures FormValid(v, hasAccount, c)
  {
    forall f ensures FieldError(f, v, hasAccount, c).None? {
    }
  }

  /** The form passes validation exactly when every check passes. */
  lemma FormValidIff(v: ProfileValues, hasAccount: bool, c: Checks)
    ensures FormValid(v, hasAccount, c) <==> ChecksPass(v, hasAccount, c)
  {
    if FormValid(v, hasAccount, c) {
      ValidPassesChecks(v, hasAccount, c);
    }
    if ChecksPass(v, hasAccount, c) {
      ChecksPassValid(v, hasAccount, c);
    }
  }

  /** The delivery times that pass are exactly the positive integers written
      as `toString` writes them (and the text `NaN`, should `Number` accept
      NaN), provided `Number` accepts the parsed value. */
  lemma DeliveryTimeAccepted(s: string, number: iset<IntOrNaN>)
    ensures DeliveryTimeError(s, number).None? <==>
      ParseInt(s) in number && (s == "NaN" || exists n: nat :: n > 0 && s == Decimal(n))
  {
    if DeliveryTimeError(s, number).None? {
      var d := ParseInt(s);
      if d.Int? {
        var n: nat := d.value;
        assert s == Decimal(n);
      }
    }
    if ParseInt(s) in number && (s == "NaN" || exists n: nat :: n > 0 && s == Decimal(n)) {
      if s == "NaN" {
        assert DigitValue('N') == 23;
        assert TrimStart(s) == s;
        assert ParseInt(s) == NaN;
      } else {
        var n: nat :| n > 0 && s == Decimal(n);
        ParseIntToString(n);
        assert NumberToString(Int(n)) == s;
      }
    }
  }

  /** A positive integer written without leading zeros or decimals never gets
      a delivery-time message once `Number` accepts it. */
  lemma CanonicalDeliveryTimeAccepted(n: nat, number: iset<IntOrNaN>)
    requires n > 0 && Int(n) in number
    ensures DeliveryTimeError(Decimal(n), number) == None
  {
    ParseIntToString(n);
  }

  /** Whatever else is wrong with the text, an accepted number that is zero or
      negative ends with the "greater than 0" message: the later assignment
      replaces the leading-zeros/decimal one. */
  lemma NonPositiveDeliveryTimeWins(s: string, number: iset<IntOrNaN>)
    requires ParseInt(s).Int? && ParseInt(s).value <= 0 && ParseInt(s) in number
    ensures DeliveryTimeError(s, number) == Some(DeliveryNotPositive)
  {
  }

  /** `parseInt` keeps leading zeros out of the value. */
  lemma ParseLeadingZeros()
    ensures ParseInt("007") == Int(7) && ParseInt("00") == Int(0)
  {
    assert "0"[..0] == "" && DigitsValue("0", 10) == 0;
    assert "00"[..1] == "0" && DigitsValue("00", 10) == 0;
    assert "007"[..2] == "00" && DigitsValue("007", 10) == 7;
    assert DigitPrefix("7", 10) == "7";
    assert DigitPrefix("07", 10) == "07";
    assert DigitPrefix("007", 10) == "007";
    assert DigitPrefix("00", 10) == "00";
    assert TrimStart("007") == "007" && TrimStart("00") == "00";
  }

  /** `parseInt` stops at the decimal point. */
  lemma ParseDecimalPart()
    ensures ParseInt("2.5") == Int(2) && ParseInt("0.5") == Int(0)
  {
    assert TrimStart("2.5") == "2.5";
    assert DigitPrefix("2.5", 10) == "2";
    assert "2"[..0] == "" && DigitsValue("2", 10) == 2;
    assert TrimStart("0.5") == "0.5";
    assert DigitPrefix("0.5", 10) == "0";
    assert "0"[..0] == "" && DigitsValue("0", 10) == 0;
  }

  /** Worked cases: leading zeros and a decimal part on a positive number
      get the format message. */
  lemma MalformedDeliveryTimes(number: iset<IntOrNaN>)
    requires forall d :: d in number
    ensures DeliveryTimeError("007", number) == Some(DeliveryNotCanonical)
    ensures DeliveryTimeError("2.5", number) == Some(DeliveryNotCanonical)
  {
    ParseLeadingZeros();
    ParseDecimalPart();
    assert Int(7) in number && Int(2) in number;
    assert NumberToString(Int(7)) == "7" && NumberToString(Int(2)) == "2";
  }

  /** Worked cases: on zero, written with extra zeros or a decimal part, the
      "greater than 0" message replaces the format message. */
  lemma ZeroDeliveryTimes(number: iset<IntOrNaN>)
    requires forall d :: d in number
    ensures DeliveryTimeError("00", number) == Some(DeliveryNotPositive)
    ensures DeliveryTimeError("0.5", number) == Some(DeliveryNotPositive)
  {
    ParseLeadingZeros();
    ParseDecimalPart();
    assert Int(0) in number;
  }

  /** The non-empty strings of `xs`, in their order. */
  function NonEmpty(xs: seq<string>): seq<string> {
    if xs == [] then [] else (if xs[0] != "" then [xs[0]] else []) + NonEmpty(xs[1..])
  }

  /** `NonEmpty` keeps every non-empty string, adds nothing empty, and never
      grows the list. */
  lemma {:induction false} NonEmptyKeeps(xs: seq<string>)
    ensures |NonEmpty(xs)| <= |xs|
    ensures forall y :: y in NonEmpty(xs) ==> y != "" && y in xs
    ensures forall x :: x in xs && x != "" ==> x in NonEmpty(xs)
    decreases |xs|
  {
    if xs != [] {
      NonEmptyKeeps(xs[1..]);
      assert xs == [xs[0]] + xs[1..];
    }
  }

  /** The `demos` list built on submit: each demo link pushed when non-empty. */
  method CollectDemos(v: ProfileValues) returns (demos: seq<string>)
    ensures demos == NonEmpty([v.demo1, v.demo2, v.demo3])
    ensures |demos| <= 3
    ensures forall d :: d in demos <==> d != "" && d in [v.demo1, v.demo2, v.demo3]
  {
    demos := [];
    if v.demo1 != "" {
      demos := demos + [v.demo1];
    }
    if v.demo2 != "" {
      demos := demos + [v.demo2];
    }
    if v.demo3 != "" {
      demos := demos + [v.demo3];
    }
    var all := [v.demo1, v.demo2, v.demo3];
    assert all[1..] == [v.demo2, v.demo3] && all[1..][1..] == [v.demo3] && all[1..][1..][1..] == [];
    assert NonEmpty([v.demo3]) == (if v.demo3 != "" then [v.demo3] else []);
    assert NonEmpty([v.demo2, v.demo3]) == (if v.demo2 != "" then [v.demo2] else []) + NonEmpty([v.demo3]);
    NonEmptyKeeps(all);
  }

  /** The record sent on submit: the typed values, the demo list and the
      parsed delivery time (the price is sent through `parseFloat`, which
      this model leaves out, so it stays as typed). */
  datatype ProfilePayload = ProfilePayload(values: ProfileValues, demos: seq<string>, deliveryTime: IntOrNaN)

  /** The two remote calls submit can make. */
  datatype SubmitCall = UpdateProfile(payload: ProfilePayload) | CreateProfile(payload: ProfilePayload)

  /** What the page does that the user can see: a submit call, or an error toast. */
  datatype FormEffect = Submitted(call: SubmitCall) | ErrorToast(text: string)

  function PayloadOf(v: ProfileValues): ProfilePayload {
    ProfilePayload(v, NonEmpty([v.demo1, v.demo2, v.demo3]), ParseInt(v.deliveryTime))
  }

  /** An existing creator updates the profile; a new one creates it. */
  function SubmitCallFor(v: ProfileValues, hasAccount: bool): SubmitCall {
    if hasAccount then UpdateProfile(PayloadOf(v)) else CreateProfile(PayloadOf(v))
  }

  /** The page state the submit path touches. */
  class OnboardForm {
    var hasAccount: bool
    var loading: bool
    var log: seq<FormEffect>

    constructor (hasAccount: bool)
      ensures this.hasAccount == hasAccount && !loading && log == []
    {
      this.hasAccount := hasAccount;
      loading := false;
      log := [];
    }

    /** `onSubmit`: builds the demo list and the payload and calls update or
        create, with `loading` raised around the call. The update call awaits
        the wallet signature outside any `try`, so when the user rejects the
        signature (`signRejected`) the handler stops there and `loading` is
        never lowered; the create call catches every failure itself. */
    method Submit(v: ProfileValues, signRejected: bool)
      modifies this
      ensures hasAccount == old(hasAccount)
      ensures loading == (hasAccount && signRejected)
      ensures log == old(log) + [Submitted(SubmitCallFor(v, hasAccount))]
    {
      loading := true;
      var demos := CollectDemos(v);
      var vals := ProfilePayload(v, demos, ParseInt(v.deliveryTime));
      var call := if hasAccount then UpdateProfile(vals) else CreateProfile(vals);
      log := log + [Submitted(call)];
      if hasAccount && signRejected {
        return;
      }
      loading := false;
    }

    /** The submit button: disabled while `loading` is up; otherwise
        validate, and submit only when the error dictionary is empty, or show
        one error toast. The press handler does not await `handleSubmit`, so
        its own `loading := false` runs before the submit handler raises
        `loading` again. */
    method PressSubmit(v: ProfileValues, c: Checks, signRejected: bool)
      modifies this
      ensures hasAccount == old(hasAccount)
      ensures old(loading) ==> loading && log == old(log)
      ensures !old(loading) ==> loading == (FormValid(v, hasAccount, c) && hasAccount && signRejected)
      ensures !old(loading) && FormValid(v, hasAccount, c) ==> log == old(log) + [Submitted(SubmitCallFor(v, hasAccount))]
      ensures !old(loading) && !FormValid(v, hasAccount, c) ==> log == old(log) + [ErrorToast(FixErrors)]
    {
      if loading {
        return;
      }
      loading := true;
      var errors := Validate(v, hasAccount, c);
      if |errors| != 0 {
        log := log + [ErrorToast(FixErrors)];
        loading := false;
      } else {
        loading := false;
        Submit(v, signRejected);
      }
    }
  }
}
