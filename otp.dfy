/** Email ownership proof by one-time code: `POST /api/verify-email` issues a
    code and stores it in the `verificationToken` table; `POST /api/verify-otp`
    checks it, stamps the user and deletes the token. */
module Otp {
  import opened Wrappers
  import opened Http
  import opened Accounts
  import Decimal
  import Text

  /** A row of the `verificationToken` table; `expires` in milliseconds.
      The `token` column is unique. */
  datatype VerificationToken = VerificationToken(identifier: string, token: string, expires: int)

  /** The mail handed to the mail-sending service (its HTML template is not modelled). */
  datatype Email = Email(to: string, subject: string, code: string)

  /** Parsed request bodies; a field is None when it is missing. */
  datatype VerifyEmailRequest = VerifyEmailRequest(email: Option<string>)
  datatype VerifyOtpRequest = VerifyOtpRequest(email: Option<string>, otp: Option<string>)

  /** A column filter of a query: `undefined` (None) places no condition on the column. */
  type Filter = Option<string>

  /** Ten minutes, in milliseconds. */
  const CodeLifetime: int := 10 * 60 * 1000
  const Subject := "Verify your email"
  const SentMessage := "Verification email sent"
  const VerifiedMessage := "Email verified successfully"
  const InvalidCode := "Invalid or expired code"
  const InternalError := "Internal Error"

  /** `Math.floor(100000 + Math.random() * 900000)` for a draw `random` in [0, 1). */
  function CodeNumber(random: real): (code: int)
    requires 0.0 <= random < 1.0
    ensures 100000 <= code <= 999999
  {
    (100000.0 + random * 900000.0).Floor
  }

  /** The code as stored and mailed: its decimal string. */
  function CodeText(random: real): (otp: string)
    requires 0.0 <= random < 1.0
    ensures IsCode(otp)
    ensures Decimal.ValueOf(otp) == CodeNumber(random)
  {
    var n := CodeNumber(random);
    assert Decimal.Pow10(5) == 100000 && Decimal.Pow10(6) == 1000000;
    Decimal.ToDecimalLength(n, 6);
    Decimal.ValueOfToDecimal(n);
    Decimal.ToDecimal(n)
  }

  /** Six decimal digits, the first not '0'. */
  predicate IsCode(otp: string)
  {
    |otp| == 6 && Decimal.AllDigits(otp) && otp[0] != '0'
  }

  predicate Matches(filter: Filter, column: string)
  {
    filter.None? || filter.value == column
  }

  /** The rows the `findFirst` of `POST /api/verify-otp` accepts: the email
      and code filters, and not yet expired. */
  predicate Live(t: VerificationToken, email: Filter, otp: Filter, now: int)
  {
    Matches(email, t.identifier) && Matches(otp, t.token) && t.expires > now
  }

  /** The first row the lookup accepts, if any. */
  function FirstLive(tokens: seq<VerificationToken>, email: Filter, otp: Filter, now: int): (r: Option<nat>)
    ensures r.Some? ==> r.value < |tokens| && Live(tokens[r.value], email, otp, now)
    ensures r.Some? ==> forall j :: 0 <= j < r.value ==> !Live(tokens[j], email, otp, now)
    ensures r.None? <==> forall j :: 0 <= j < |tokens| ==> !Live(tokens[j], email, otp, now)
  {
    if tokens == [] then None
    else if Live(tokens[0], email, otp, now) then Some(0)
    else match FirstLive(tokens[1..], email, otp, now)
      case None => None
      case Some(i) => Some(i + 1)
  }

  /** How many rows the lookup would accept. */
  function LiveCount(tokens: seq<VerificationToken>, email: Filter, otp: Filter, now: int): (count: nat)
  {
    if tokens == [] then 0
    else (if Live(tokens[0], email, otp, now) then 1 else 0) + LiveCount(tokens[1..], email, otp, now)
  }

  /** The unique constraint on the `token` column. */
  predicate DistinctTokens(tokens: seq<VerificationToken>)
  {
    forall i, j :: 0 <= i < j < |tokens| ==> tokens[i].token != tokens[j].token
  }

  predicate TokenInUse(tokens: seq<VerificationToken>, otp: string)
  {
    exists i :: 0 <= i < |tokens| && tokens[i].token == otp
  }

  function RemoveAt<T>(s: seq<T>, i: nat): (r: seq<T>)
    requires i < |s|
    ensures |r| == |s| - 1
    ensures multiset(r) + multiset{s[i]} == multiset(s)
    ensures forall k :: 0 <= k < |r| ==> r[k] == if k < i then s[k] else s[k + 1]
  {
    assert s == s[..i] + [s[i]] + s[i + 1..];
    s[..i] + s[i + 1..]
  }

  /** Deleting a row keeps the remaining codes distinct. */
  lemma RemoveKeepsDistinct(tokens: seq<VerificationToken>, i: nat)
    requires i < |tokens| && DistinctTokens(tokens)
    ensures DistinctTokens(RemoveAt(tokens, i))
  {
    var r := RemoveAt(tokens, i);
    forall a, b | 0 <= a < b < |r| ensures r[a].token != r[b].token {
      var a', b' := if a < i then a else a + 1, if b < i then b else b + 1;
      assert r[a] == tokens[a'] && r[b] == tokens[b'] && a' < b';
    }
  }

  lemma {:induction false} LiveCountAppend(a: seq<VerificationToken>, b: seq<VerificationToken>, email: Filter, otp: Filter, now: int)
    ensures LiveCount(a + b, email, otp, now) == LiveCount(a, email, otp, now) + LiveCount(b, email, otp, now)
    decreases |a|
  {
    if a == [] {
      assert a + b == b;
    } else {
      assert (a + b)[0] == a[0] && (a + b)[1..] == a[1..] + b;
      LiveCountAppend(a[1..], b, email, otp, now);
    }
  }

  /** Some row is accepted exactly when at least one is. */
  lemma {:induction false} LiveCountPositive(tokens: seq<VerificationToken>, email: Filter, otp: Filter, now: int)
    ensures LiveCount(tokens, email, otp, now) > 0 <==> FirstLive(tokens, email, otp, now).Some?
    decreases |tokens|
  {
    if tokens != [] {
      LiveCountPositive(tokens[1..], email, otp, now);
    }
  }

  /** With unique codes, a lookup that names a code accepts at most one row. */
  lemma {:induction false} AtMostOneLive(tokens: seq<VerificationToken>, email: Filter, otp: string, now: int)
    requires DistinctTokens(tokens)
    ensures LiveCount(tokens, email, Some(otp), now) <= 1
    decreases |tokens|
  {
    if tokens != [] {
      AtMostOneLive(tokens[1..], email, otp, now);
      if Live(tokens[0], email, Some(otp), now) {
        LiveCountPositive(tokens[1..], email, Some(otp), now);
      }
    }
  }

  /** Deleting the accepted row lowers the number of accepted rows by exactly one. */
  lemma ConsumeOne(tokens: seq<VerificationToken>, email: Filter, otp: Filter, now: int, i: nat)
    requires i < |tokens| && Live(tokens[i], email, otp, now)
    ensures LiveCount(RemoveAt(tokens, i), email, otp, now) == LiveCount(tokens, email, otp, now) - 1
  {
    assert tokens == tokens[..i] + [tokens[i]] + tokens[i + 1..];
    LiveCountAppend(tokens[..i] + [tokens[i]], tokens[i + 1..], email, otp, now);
    LiveCountAppend(tokens[..i], [tokens[i]], email, otp, now);
    LiveCountAppend(tokens[..i], tokens[i + 1..], email, otp, now);
    assert LiveCount([tokens[i]], email, otp, now) == 1 by {
      assert [tokens[i]][1..] == [];
    }
  }

  /** The number of accepted rows never grows as time advances. */
  lemma {:induction false} LiveCountMonotone(tokens: seq<VerificationToken>, email: Filter, otp: Filter, earlier: int, later: int)
    requires earlier <= later
    ensures LiveCount(tokens, email, otp, later) <= LiveCount(tokens, email, otp, earlier)
    decreases |tokens|
  {
    if tokens != [] {
      LiveCountMonotone(tokens[1..], email, otp, earlier, later);
    }
  }

  /** The boundary is strict: a row is no longer accepted at the instant it expires. */
  lemma ExpiredAtDeadline(t: VerificationToken, email: Filter, otp: Filter)
    ensures !Live(t, email, otp, t.expires)
  {
  }

  /** A code issued at `issued` adds one accepted row for lookups that admit
      its email and code strictly before `issued + CodeLifetime`, and none
      from then on, nor for lookups naming another email or code. */
  lemma IssuedRowWindow(tokens: seq<VerificationToken>, email: string, otp: string, issued: int,
                        email': Filter, otp': Filter, now: int)
    ensures var t := VerificationToken(email, otp, issued + CodeLifetime);
      LiveCount(tokens + [t], email', otp', now)
      == LiveCount(tokens, email', otp', now)
         + (if Matches(email', email) && Matches(otp', otp) && now < issued + 600000 then 1 else 0)
  {
    var t := VerificationToken(email, otp, issued + CodeLifetime);
    LiveCountAppend(tokens, [t], email', otp', now);
    assert [t][1..] == [];
  }

  /** A code issued at `issued` is accepted for its email at any time in
      [issued, issued + CodeLifetime). */
  lemma IssueThenAccept(tokens: seq<VerificationToken>, email: string, otp: string, issued: int, now: int)
    requires issued <= now < issued + CodeLifetime
    ensures FirstLive(tokens + [VerificationToken(email, otp, issued + CodeLifetime)], Some(email), Some(otp), now).Some?
  {
    var t := VerificationToken(email, otp, issued + CodeLifetime);
    IssuedRowWindow(tokens, email, otp, issued, Some(email), Some(otp), now);
    LiveCountPositive(tokens + [t], Some(email), Some(otp), now);
  }

  /** Once the accepted row is consumed, the same email and code are
      rejected then and at any later time. */
  lemma ReplayRejected(tokens: seq<VerificationToken>, email: string, otp: string, now: int, later: int, i: nat)
    requires DistinctTokens(tokens)
    requires i < |tokens| && Live(tokens[i], Some(email), Some(otp), now)
    requires now <= later
    ensures FirstLive(RemoveAt(tokens, i), Some(email), Some(otp), later).None?
  {
    AtMostOneLive(tokens, Some(email), otp, now);
    ConsumeOne(tokens, Some(email), Some(otp), now, i);
    LiveCountMonotone(RemoveAt(tokens, i), Some(email), Some(otp), now, later);
    LiveCountPositive(RemoveAt(tokens, i), Some(email), Some(otp), later);
  }

  /** A row accepted earlier but not later leaves strictly fewer accepted rows. */
  lemma {:induction false} LiveCountDrops(tokens: seq<VerificationToken>, email: Filter, otp: Filter,
                                          earlier: int, later: int, i: nat)
    requires earlier <= later
    requires i < |tokens| && Live(tokens[i], email, otp, earlier) && !Live(tokens[i], email, otp, later)
    ensures LiveCount(tokens, email, otp, later) < LiveCount(tokens, email, otp, earlier)
    decreases |tokens|
  {
    if i == 0 {
      LiveCountMonotone(tokens[1..], email, otp, earlier, later);
    } else {
      LiveCountDrops(tokens[1..], email, otp, earlier, later, i - 1);
    }
  }

  /** The lookup and the delete read the clock separately: if the accepted
      row expires in between, the delete matches nothing. */
  lemma ExpiredBeforeDelete(tokens: seq<VerificationToken>, email: string, otp: string,
                            tFind: int, tDelete: int, i: nat)
    requires DistinctTokens(tokens)
    requires i < |tokens| && Live(tokens[i], Some(email), Some(otp), tFind)
    requires tFind <= tDelete && tokens[i].expires <= tDelete
    ensures FirstLive(tokens, Some(email), Some(otp), tDelete).None?
  {
    AtMostOneLive(tokens, Some(email), otp, tFind);
    LiveCountDrops(tokens, Some(email), Some(otp), tFind, tDelete, i);
    LiveCountPositive(tokens, Some(email), Some(otp), tDelete);
  }

  /** The success reply of `POST /api/verify-email` contains no digit, so no
      six-digit code occurs in it: the code leaves only by mail. */
  lemma CodeNotInReply(otp: string)
    requires IsCode(otp)
    ensures forall i: nat :: !Text.OccursAt(SentMessage, i, otp)
  {
    assert forall k :: 0 <= k < |SentMessage| ==> !Decimal.IsDigit(SentMessage[k]);
    forall i: nat ensures !Text.OccursAt(SentMessage, i, otp) {
      if i + |otp| <= |SentMessage| {
        assert SentMessage[i..i + |otp|][0] == SentMessage[i];
      }
    }
  }

  /** Whether `POST /api/verify-otp`, as written, sets `emailVerified` for
      the request's email: the lookup accepts a row and a user has the email. */
  predicate StampsAsWritten(tokens: seq<VerificationToken>, users: UserTable, request: VerifyOtpRequest, tFind: int)
  {
    && FirstLive(tokens, request.email, request.otp, tFind).Some?
    && request.email.Some? && request.email.value in users
  }

  /** With the code check added: the same, but only when a code is given. */
  predicate StampsChecked(tokens: seq<VerificationToken>, users: UserTable, request: VerifyOtpRequest, tFind: int)
  {
    Present(request.otp) && StampsAsWritten(tokens, users, request, tFind)
  }

  /** As written, a body without `otp` verifies an email without its code:
      the missing filter lets the lookup accept the row whatever its code. */
  lemma StampWithoutCode()
    ensures var user := User("u1", "a@b.c", None, None);
      var tokens := [VerificationToken("a@b.c", "482913", 600000)];
      var request := VerifyOtpRequest(Some("a@b.c"), None);
      && StampsAsWritten(tokens, map["a@b.c" := user], request, 0)
      && !exists i :: 0 <= i < |tokens| && request.otp == Some(tokens[i].token)
  {
    var tokens := [VerificationToken("a@b.c", "482913", 600000)];
    assert Live(tokens[0], Some("a@b.c"), None, 0);
  }

  /** With the check, an email is stamped only when a live row of that email
      carries exactly the submitted code. */
  lemma CheckedStampNeedsCode(tokens: seq<VerificationToken>, users: UserTable, request: VerifyOtpRequest, tFind: int)
    requires StampsChecked(tokens, users, request, tFind)
    ensures exists i :: (0 <= i < |tokens|
      && tokens[i].identifier == request.email.value
      && Some(tokens[i].token) == request.otp
      && tokens[i].expires > tFind)
  {
    var i := FirstLive(tokens, request.email, request.otp, tFind).value;
    assert tokens[i].identifier == request.email.value && Some(tokens[i].token) == request.otp;
  }

  /** The `verificationToken` and `user` tables, and the mail handed to the
      mail-sending service. */
  class VerificationStore {
    var tokens: seq<VerificationToken>
    var users: UserTable
    var outbox: seq<Email>

    /** Users are keyed by their email; every stored code is a six-digit code,
        and no two rows share a code. */
    ghost predicate Valid()
      reads this
    {
      && KeyedByEmail(users)
      && (forall i :: 0 <= i < |tokens| ==> IsCode(tokens[i].token))
      && DistinctTokens(tokens)
    }

    constructor (initialUsers: UserTable)
      requires KeyedByEmail(initialUsers)
      ensures Valid()
      ensures tokens == [] && users == initialUsers && outbox == []
    {
      tokens := [];
      users := initialUsers;
      outbox := [];
    }

    /** `POST /api/verify-email`. `request` is None when the body is not JSON;
        `random` is the value of `Math.random()`; `stored` and `delivered`
        say whether the database and the mail service answered normally. The
        insert also throws when `email` is missing (a required column) and
        when the drawn code is already in the table (the unique column). */
    method RequestCode(request: Option<VerifyEmailRequest>, now: int, random: real, stored: bool, delivered: bool)
      returns (r: Reply<string>)
      requires Valid()
      requires 0.0 <= random < 1.0
      modifies this
      ensures Valid() && users == old(users)
      ensures var inserted := request.Some? && request.value.email.Some? && stored
                              && !TokenInUse(old(tokens), CodeText(random));
        && (r.Ok? <==> inserted && delivered)
        && (tokens == if inserted
            then old(tokens) + [VerificationToken(request.value.email.value, CodeText(random), now + CodeLifetime)]
            else old(tokens))
      ensures r.Ok? ==> r.body == SentMessage
      ensures r.Fail? ==> r == Fail(500, InternalError)
      ensures outbox == if r.Ok?
        then old(outbox) + [Email(request.value.email.value, Subject, CodeText(random))]
        else old(outbox)
    {
      if request.None? {
        return Fail(500, InternalError);
      }
      var otp := CodeText(random);
      var expiresAt := now + CodeLifetime;
      if request.value.email.None? || !stored || TokenInUse(tokens, otp) {
        return Fail(500, InternalError);
      }
      var email := request.value.email.value;
      tokens := tokens + [VerificationToken(email, otp, expiresAt)];
      if !delivered {
        return Fail(500, InternalError);
      }
      outbox := outbox + [Email(email, Subject, otp)];
      r := Ok(SentMessage);
    }

    /** `POST /api/verify-otp` as written. The handler reads the clock three
        times: for the lookup (`tFind`), for the stamp (`tStamp`) and for the
        delete (`tDelete`). The update throws when the email is missing or no
        user has it; the delete, which selects by the unique `token`, throws
        when the code is missing or no row matches at `tDelete`. */
    method VerifyCode(request: Option<VerifyOtpRequest>, tFind: int, tStamp: int, tDelete: int)
      returns (r: Reply<string>)
      requires Valid()
      modifies this
      ensures Valid() && outbox == old(outbox)
      ensures request.None? ==> r == Fail(500, InternalError) && tokens == old(tokens) && users == old(users)
      ensures request.Some? ==>
        var email, otp := request.value.email, request.value.otp;
        if FirstLive(old(tokens), email, otp, tFind).None? then
          r == Fail(400, InvalidCode) && tokens == old(tokens) && users == old(users)
        else if !StampsAsWritten(old(tokens), old(users), request.value, tFind) then
          r == Fail(500, InternalError) && tokens == old(tokens) && users == old(users)
        else
          users == old(users)[email.value := old(users)[email.value].(emailVerified := Some(tStamp))]
          && match (if otp.None? then None else FirstLive(old(tokens), email, otp, tDelete))
             case None => r == Fail(500, InternalError) && tokens == old(tokens)
             case Some(i) => r == Ok(VerifiedMessage) && tokens == RemoveAt(old(tokens), i)
      ensures request.Some? && request.value.otp.None? && StampsAsWritten(old(tokens), old(users), request.value, tFind) ==>
        users[request.value.email.value].emailVerified == Some(tStamp) && r == Fail(500, InternalError)
    {
      if request.None? {
        return Fail(500, InternalError);
      }
      var email, otp := request.value.email, request.value.otp;
      var found := FirstLive(tokens, email, otp, tFind);
      if found.None? {
        return Fail(400, InvalidCode);
      }
      if email.None? || email.value !in users {
        return Fail(500, InternalError);
      }
      users := users[email.value := users[email.value].(emailVerified := Some(tStamp))];
      if otp.None? {
        return Fail(500, InternalError);
      }
      var doomed := FirstLive(tokens, email, otp, tDelete);
      if doomed.None? {
        return Fail(500, InternalError);
      }
      RemoveKeepsDistinct(tokens, doomed.value);
      tokens := RemoveAt(tokens, doomed.value);
      r := Ok(VerifiedMessage);
    }

    /** `POST /api/verify-otp` with the code required: a body without a code
        (or with an empty one) is refused with 400 before any lookup, and an
        email is stamped only when a live row of it carries the submitted code. */
    method VerifyCodeChecked(request: Option<VerifyOtpRequest>, tFind: int, tStamp: int, tDelete: int)
      returns (r: Reply<string>)
      requires Valid()
      modifies this
      ensures Valid() && outbox == old(outbox)
      ensures request.None? ==> r == Fail(500, InternalError) && tokens == old(tokens) && users == old(users)
      ensures request.Some? && !Present(request.value.otp) ==>
        r == Fail(400, InvalidCode) && tokens == old(tokens) && users == old(users)
      ensures request.Some? && Present(request.value.otp) ==>
        var email, otp := request.value.email, request.value.otp;
        if FirstLive(old(tokens), email, otp, tFind).None? then
          r == Fail(400, InvalidCode) && tokens == old(tokens) && users == old(users)
        else if !StampsChecked(old(tokens), old(users), request.value, tFind) then
          r == Fail(500, InternalError) && tokens == old(tokens) && users == old(users)
        else
          users == old(users)[email.value := old(users)[email.value].(emailVerified := Some(tStamp))]
          && match FirstLive(old(tokens), email, otp, tDelete)
             case None => r == Fail(500, InternalError) && tokens == old(tokens)
             case Some(i) => r == Ok(VerifiedMessage) && tokens == RemoveAt(old(tokens), i)
      ensures users != old(users) ==>
        request.Some? && StampsChecked(old(tokens), old(users), request.value, tFind)
        && exists i :: 0 <= i < |old(tokens)|
             && old(tokens)[i].identifier == request.value.email.value
             && Some(old(tokens)[i].token) == request.value.otp
             && old(tokens)[i].expires > tFind
    {
      if request.Some? && !Present(request.value.otp) {
        return Fail(400, InvalidCode);
      }
      ghost var before, usersBefore := tokens, users;
      r := VerifyCode(request, tFind, tStamp, tDelete);
      if users != usersBefore {
        CheckedStampNeedsCode(before, usersBefore, request.value, tFind);
      }
    }
  }
}
