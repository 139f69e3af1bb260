/** The first-run setup page: the phone number formatter on the phone
    input, the profile form with its all-fields rule, the skip button, and
    the popup's check that sends a new user to this page. */
module Setup {

  import opened Json
  import opened Text

  // ---------------------------------------------------------------------
  // phone formatting (lines 106-119)

  predicate AllDigits(s: string)
  {
    forall i :: 0 <= i < |s| ==> IsDigit(s[i])
  }

  /** The US rendering of a phone field: the digits only, cut to ten, then
      `+1 (AAA) BBB-CCCC` for ten digits, `(AAA) BBB-rest` for six to nine,
      `(AAA) rest` for three to five, and the bare digits below three. */
  function FormatPhone(s: string): (r: string)
    ensures |Digits(s)| >= 10 ==> |r| == 17 && r[..4] == "+1 ("
    ensures 3 <= |Digits(s)| < 10 ==> |r| == |Digits(s)| + (if |Digits(s)| >= 6 then 4 else 3) && r[0] == '('
  {
    var d := Digits(s);
    if |d| >= 10 then International(d[..10])
    else if |d| >= 6 then "(" + d[..3] + ") " + d[3..6] + "-" + d[6..]
    else if |d| >= 3 then "(" + d[..3] + ") " + d[3..]
    else d
  }

  /** `+1 (AAA) BBB-CCCC`. */
  function International(d: string): string
    requires |d| == 10
  {
    "+1 (" + d[..3] + ") " + d[3..6] + "-" + d[6..]
  }

  /** The phone input: its listener rewrites the field on every input event. */
  class PhoneInput {
    var value: string

    constructor ()
      ensures value == []
    {
      value := [];
    }

    /** The user types: the browser puts `typed` in the field, then the
        listener formats it. */
    method OnInput(typed: string)
      modifies this
      ensures value == FormatPhone(typed)
    {
      value := typed;
      var digits := Digits(value);
      if |digits| >= 10 {
        digits := digits[..10];
        value := International(digits);
      } else if |digits| >= 6 {
        value := "(" + digits[..3] + ") " + digits[3..6] + "-" + digits[6..];
      } else if |digits| >= 3 {
        value := "(" + digits[..3] + ") " + digits[3..];
      } else {
        value := digits;
      }
    }
  }

  lemma DigitsOfAllDigits(s: string)
    requires AllDigits(s)
    ensures Digits(s) == s
  {
    DigitsOfDigits(s);
  }

  /** The digits of a character followed by a string. */
  lemma DigitsCons(c: char, t: string)
    ensures Digits([c] + t) == (if IsDigit(c) then [c] else []) + Digits(t)
  {
    assert ([c] + t)[0] == c;
    assert ([c] + t)[1..] == t;
  }

  /** Characters without digits followed by digits: just the digits. */
  lemma {:induction false} SeparatedDigits(sep: string, x: string)
    requires forall i :: 0 <= i < |sep| ==> !IsDigit(sep[i])
    requires AllDigits(x)
    ensures Digits(sep + x) == x
  {
    if sep == [] {
      assert sep + x == x;
      DigitsOfAllDigits(x);
    } else {
      SeparatedDigits(sep[1..], x);
      assert sep + x == [sep[0]] + (sep[1..] + x);
      DigitsCons(sep[0], sep[1..] + x);
    }
  }

  /** The digits of the ten-digit rendering of `d`. */
  lemma TenDigits(d: string)
    requires AllDigits(d) && |d| == 10
    ensures Digits(International(d)) == "1" + d
  {
    var x, y, z := d[..3], d[3..6], d[6..];
    CountryPrefixDigits(x);
    SeparatedDigits(") ", y);
    SeparatedDigits("-", z);
    var p := "+1 (" + x + ") " + y;
    DigitsAppend("+1 (" + x, ") " + y);
    assert p == ("+1 (" + x) + (") " + y);
    assert Digits(p) == "1" + x + y;
    DigitsAppend(p, "-" + z);
    assert International(d) == p + ("-" + z);
    assert "1" + x + y + z == "1" + d;
  }

  /** The digits of `+1 (` followed by digits. */
  lemma CountryPrefixDigits(x: string)
    requires AllDigits(x)
    ensures Digits("+1 (" + x) == "1" + x
  {
    SeparatedDigits(" (", x);
    assert "+1 (" + x == ['+'] + (['1'] + (" (" + x));
    DigitsCons('1', " (" + x);
    DigitsCons('+', ['1'] + (" (" + x));
  }

  /** The digits of the six-to-nine-digit rendering of `d`. */
  lemma SixDigits(d: string)
    requires AllDigits(d) && |d| >= 6
    ensures Digits("(" + d[..3] + ") " + d[3..6] + "-" + d[6..]) == d
  {
    var x, y, z := d[..3], d[3..6], d[6..];
    SeparatedDigits("(", x);
    SeparatedDigits(") ", y);
    SeparatedDigits("-", z);
    DigitsAppend("(" + x, ") " + y);
    DigitsAppend("(" + x + ") " + y, "-" + z);
    assert "(" + x + ") " + y + "-" + z == ("(" + x + ") " + y) + ("-" + z);
    assert "(" + x + ") " + y == ("(" + x) + (") " + y);
    assert d == x + y + z;
  }

  /** The digits of the three-to-five-digit rendering of `d`. */
  lemma ThreeDigits(d: string)
    requires AllDigits(d) && |d| >= 3
    ensures Digits("(" + d[..3] + ") " + d[3..]) == d
  {
    var x, y := d[..3], d[3..];
    SeparatedDigits("(", x);
    SeparatedDigits(") ", y);
    DigitsAppend("(" + x, ") " + y);
    assert "(" + x + ") " + y == ("(" + x) + (") " + y);
    assert d == x + y;
  }

  /** The formatter keeps the digits typed, cut to ten; the only digit it
      adds is the `1` of the `+1` prefix. */
  lemma PhoneDigits(s: string)
    ensures |Digits(s)| >= 10 ==> Digits(FormatPhone(s)) == "1" + Digits(s)[..10]
    ensures |Digits(s)| < 10 ==> Digits(FormatPhone(s)) == Digits(s)
  {
    var d := Digits(s);
    if |d| >= 10 {
      TenDigits(d[..10]);
    } else if |d| >= 6 {
      SixDigits(d);
    } else if |d| >= 3 {
      ThreeDigits(d);
    } else {
      DigitsOfAllDigits(d);
    }
  }

  /** Below ten digits, formatting a formatted field changes nothing, so the
      field settles as the user keeps typing. */
  lemma PhoneIdempotentShort(s: string)
    requires |Digits(s)| < 10
    ensures FormatPhone(FormatPhone(s)) == FormatPhone(s)
  {
    PhoneDigits(s);
  }

  /** At ten digits the next input event reads the `1` of `+1` as a digit
      and shifts the number, unless all ten digits are ones. */
  lemma PhoneNotIdempotentLong(s: string)
    requires |Digits(s)| >= 10
    ensures FormatPhone(FormatPhone(s)) == FormatPhone(s) <==>
      forall k :: 0 <= k < 10 ==> Digits(s)[k] == '1'
  {
    var d := Digits(s)[..10];
    PhoneDigits(s);
    var e := ("1" + d)[..10];
    assert FormatPhone(FormatPhone(s)) == International(e);
    ShiftFixed(d);
  }

  /** Rendering the shifted digits gives the same text only for ten
      ones. */
  lemma ShiftFixed(d: string)
    requires AllDigits(d) && |d| == 10
    ensures International(("1" + d)[..10]) == International(d) <==>
      forall k :: 0 <= k < 10 ==> d[k] == '1'
  {
    var e := ("1" + d)[..10];
    if International(e) == International(d) {
      TenDigits(e);
      TenDigits(d);
      assert ("1" + e)[1..] == e && ("1" + d)[1..] == d;
      forall k | 0 <= k < 10
        ensures d[k] == '1'
      {
        AllOnes(d, k);
      }
    } else if forall k :: 0 <= k < 10 ==> d[k] == '1' {
      assert forall k :: 0 <= k < 10 ==> e[k] == d[k];
      assert e == d;
    }
  }

  /** A string equal to itself shifted right by a `1` is all ones. */
  lemma {:induction false} AllOnes(d: string, k: nat)
    requires |d| == 10 && ("1" + d)[..10] == d && k < 10
    ensures d[k] == '1'
  {
    if k > 0 {
      AllOnes(d, k - 1);
      assert d[k] == ("1" + d)[..10][k];
    } else {
      assert d[0] == ("1" + d)[..10][0];
    }
  }

  // ---------------------------------------------------------------------
  // the profile form (lines 13-103)

  datatype Profile = Profile(clientId: string, firstName: string, lastName: string,
                             email: string, phone: string, createdAt: string)

  /** The raw values of the four form fields. */
  datatype SetupForm = SetupForm(firstName: string, lastName: string, email: string, phone: string)

  /** The profile the form describes (`clientId` and `createdAt` come from
      the random generator and the clock), or None when a trimmed field is
      empty and the user is asked to fill in all fields. */
  function ProfileOf(form: SetupForm, clientId: string, now: string): (r: Option<Profile>)
    ensures r.Some? <==>
      Trim(form.firstName) != [] && Trim(form.lastName) != [] &&
      Trim(form.email) != [] && Trim(form.phone) != []
    ensures r.Some? ==> r.value == Profile(clientId, Trim(form.firstName), Trim(form.lastName),
                                           Trim(form.email), Trim(form.phone), now)
  {
    var p := Profile(clientId, Trim(form.firstName), Trim(form.lastName),
                     Trim(form.email), Trim(form.phone), now);
    if p.firstName == [] || p.lastName == [] || p.email == [] || p.phone == [] then None
    else Some(p)
  }

  /** What the submit button ends in. */
  datatype SubmitOutcome = FillInAllFields | SetupComplete | SetupFailed

  /** The keys of extension storage the setup flow writes and the popup
      reads. */
  class SetupStorage {
    var userProfile: Option<Profile>
    var setupCompleted: bool
    var setupDate: Option<string>
    var setupSkipped: bool
    var skipDate: Option<string>

    constructor ()
      ensures userProfile == None && setupDate == None && skipDate == None
      ensures !setupCompleted && !setupSkipped
    {
      userProfile, setupCompleted, setupDate := None, false, None;
      setupSkipped, skipDate := false, None;
    }

    /** The popup's check on opening (popup.js lines 2-13): a new user is
        sent to the setup page unless setup was completed or skipped. */
    predicate NeedsSetup()
      reads this
    {
      !setupCompleted && !setupSkipped
    }

    /** The submit handler. The clock is read twice: `createdAt` when the
        profile is built (setup.js line 46) and `savedAt` when it is saved
        (line 19). `writes` tells whether `chrome.storage.local.set`
        succeeds; a failed write stores nothing. */
    method Submit(form: SetupForm, clientId: string, createdAt: string, savedAt: string, writes: bool)
      returns (o: SubmitOutcome)
      modifies this
      ensures ProfileOf(form, clientId, createdAt).None? <==> o == FillInAllFields
      ensures o == SetupComplete <==> ProfileOf(form, clientId, createdAt).Some? && writes
      ensures o == SetupComplete ==>
        && userProfile == ProfileOf(form, clientId, createdAt)
        && setupCompleted && setupDate == Some(savedAt)
        && setupSkipped == old(setupSkipped) && skipDate == old(skipDate)
        && !NeedsSetup()
      ensures o != SetupComplete ==> unchanged(this)
    {
      var profile := ProfileOf(form, clientId, createdAt);
      if profile.None? {
        return FillInAllFields;
      }
      if !writes {
        return SetupFailed;
      }
      userProfile, setupCompleted, setupDate := profile, true, Some(savedAt);
      return SetupComplete;
    }

    /** The skip button: only the skip flag and its date are written. */
    method Skip(now: string, writes: bool)
      modifies this
      ensures writes ==> setupSkipped && skipDate == Some(now) && !NeedsSetup()
      ensures writes ==> userProfile == old(userProfile) && setupCompleted == old(setupCompleted)
                         && setupDate == old(setupDate)
      ensures !writes ==> unchanged(this)
    {
      if writes {
        setupSkipped, skipDate := true, Some(now);
      }
    }
  }

  /** A profile is only ever stored with all four fields non-empty and
      trimmed. */
  lemma StoredProfileComplete(form: SetupForm, clientId: string, now: string)
    requires ProfileOf(form, clientId, now).Some?
    ensures var p := ProfileOf(form, clientId, now).value;
      p.firstName != [] && p.lastName != [] && p.email != [] && p.phone != []
      && Trim(p.firstName) == p.firstName && Trim(p.phone) == p.phone
  {
    TrimIdempotent(form.firstName);
    TrimIdempotent(form.phone);
  }
}
