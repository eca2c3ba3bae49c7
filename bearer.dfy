/** Resolution of the optional `Authorization` header shared by both prediction routes
    (backend/routes/predictor.py:29-38 and 116-123): the header is split on single spaces, and only
    a header of exactly two parts is looked at; its second part is the token. */
module Bearer {
  import opened Wrappers

  /** Python's `s.split(" ")`: the pieces between single spaces, so that consecutive spaces and
      spaces at either end give empty parts, and there is always at least one part. */
  function Split(s: string): (parts: seq<string>)
    ensures |parts| >= 1
  {
    if |s| == 0 then [""]
    else
      var rest := Split(s[1..]);
      if s[0] == ' ' then [""] + rest
      else [[s[0]] + rest[0]] + rest[1..]
  }

  /** Python's `" ".join(parts)`, the inverse of `Split`. */
  function Join(parts: seq<string>): string {
    if |parts| == 0 then ""
    else if |parts| == 1 then parts[0]
    else parts[0] + " " + Join(parts[1..])
  }

  function CountSpaces(s: string): nat {
    if |s| == 0 then 0 else (if s[0] == ' ' then 1 else 0) + CountSpaces(s[1..])
  }

  /** Joining the parts restores the header. */
  lemma {:induction false} SplitJoin(s: string)
    ensures Join(Split(s)) == s
  {
    if |s| > 0 {
      var rest := Split(s[1..]);
      SplitJoin(s[1..]);
      if s[0] == ' ' {
        assert ([""] + rest)[1..] == rest;
      } else {
        var parts := [[s[0]] + rest[0]] + rest[1..];
        assert parts[1..] == rest[1..];
        if |rest| == 1 {
          assert Join(parts) == [s[0]] + rest[0];
        } else {
          assert Join(rest) == rest[0] + " " + Join(rest[1..]);
        }
        assert s == [s[0]] + s[1..];
      }
    }
  }

  /** No part contains the separator. */
  lemma {:induction false} SplitPartsHaveNoSpace(s: string)
    ensures forall k :: 0 <= k < |Split(s)| ==> ' ' !in Split(s)[k]
  {
    if |s| > 0 {
      SplitPartsHaveNoSpace(s[1..]);
      var rest := Split(s[1..]);
      if s[0] != ' ' {
        var parts := [[s[0]] + rest[0]] + rest[1..];
        assert forall k :: 1 <= k < |parts| ==> parts[k] == rest[k];
      } else {
        assert forall k :: 1 <= k < |rest| + 1 ==> ([""] + rest)[k] == rest[k - 1];
      }
    }
  }

  /** There is one part more than there are spaces. */
  lemma {:induction false} SplitCount(s: string)
    ensures |Split(s)| == CountSpaces(s) + 1
  {
    if |s| > 0 {
      SplitCount(s[1..]);
    }
  }

  /** Splitting text that starts with a run of non-spaces extends the first part. */
  lemma {:induction false} SplitNoSpacePrefix(a: string, t: string)
    requires ' ' !in a
    ensures Split(a + t) == [a + Split(t)[0]] + Split(t)[1..]
  {
    if |a| > 0 {
      SplitNoSpacePrefix(a[1..], t);
      assert (a + t)[1..] == a[1..] + t;
      assert (a + t)[0] == a[0];
      assert [a[0]] + (a[1..] + Split(t)[0]) == a + Split(t)[0];
    } else {
      var parts := Split(t);
      assert a + t == t && a + parts[0] == parts[0];
      assert parts == [parts[0]] + parts[1..];
    }
  }

  /** Splitting the join of space-free parts gives the parts back. */
  lemma {:induction false} JoinSplit(parts: seq<string>)
    requires |parts| >= 1
    requires forall k :: 0 <= k < |parts| ==> ' ' !in parts[k]
    ensures Split(Join(parts)) == parts
  {
    if |parts| == 1 {
      SplitNoSpacePrefix(parts[0], "");
      assert parts[0] + "" == parts[0];
    } else {
      var j := Join(parts[1..]);
      JoinSplit(parts[1..]);
      assert Split(" " + j) == [""] + parts[1..] by {
        assert (" " + j)[1..] == j;
      }
      assert Join(parts) == parts[0] + (" " + j);
      SplitNoSpacePrefix(parts[0], " " + j);
      assert parts[0] + "" == parts[0];
    }
  }

  /** The token of a present, non-empty header that splits into exactly two parts. */
  function BearerToken(authorization: Option<string>): Option<string> {
    if authorization.None? || authorization.value == "" then None
    else
      var parts := Split(authorization.value);
      if |parts| == 2 then Some(parts[1]) else None
  }

  /** Python truthiness of `verify_token`'s result: neither `None` nor the empty string. */
  predicate Truthy(username: Option<string>) {
    username.Some? && username.value != ""
  }

  /** Who a request acts for. */
  datatype Resolution = Anonymous | Claimed(username: string) | Rejected

  /** The header resolution of `predict_meal`: no usable token is anonymous, a token that does not
      verify is rejected. */
  function ResolveForPredict(authorization: Option<string>, verifyToken: string -> Option<string>): Resolution {
    match BearerToken(authorization)
    case None => Anonymous
    case Some(token) =>
      var username := verifyToken(token);
      if Truthy(username) then Claimed(username.value) else Rejected
  }

  /** The header resolution of `get_meals`: a token that does not verify is simply no identity. */
  function ResolveForMeals(authorization: Option<string>, verifyToken: string -> Option<string>): Option<string> {
    match BearerToken(authorization)
    case None => None
    case Some(token) =>
      var username := verifyToken(token);
      if Truthy(username) then Some(username.value) else None
  }

  // ---- Properties of header resolution ----

  /** A header yields a token exactly when it holds exactly one space, and the token is the text
      after that space, which contains no space. */
  lemma {:induction false} BearerTokenShape(h: string)
    ensures BearerToken(Some(h)).Some? <==> CountSpaces(h) == 1
    ensures BearerToken(Some(h)).Some? ==>
              ' ' !in Split(h)[0] && ' ' !in BearerToken(Some(h)).value &&
              h == Split(h)[0] + " " + BearerToken(Some(h)).value
  {
    SplitCount(h);
    SplitPartsHaveNoSpace(h);
    if |Split(h)| == 2 {
      SplitJoin(h);
      var parts := Split(h);
      assert Join(parts) == parts[0] + " " + Join(parts[1..]);
      assert Join(parts[1..]) == parts[1];
    }
  }

  /** A header in `<scheme> <token>` form yields `<token>`, whatever the scheme is: the first part
      is never compared with "Bearer", and Basic or empty schemes pass through too. */
  lemma {:induction false} SchemeNotChecked(scheme: string, token: string)
    requires ' ' !in scheme && ' ' !in token
    ensures BearerToken(Some(scheme + " " + token)) == Some(token)
  {
    var parts := [scheme, token];
    assert Join(parts[1..]) == token;
    assert Join(parts) == scheme + " " + token;
    JoinSplit(parts);
  }

  /** `predict_meal` with no header, an empty header, or one that does not split into exactly two
      parts proceeds anonymously instead of rejecting the request. */
  lemma {:induction false} UnusableHeaderIsAnonymous(authorization: Option<string>, verifyToken: string -> Option<string>)
    requires authorization.None? || CountSpaces(authorization.value) != 1
    ensures ResolveForPredict(authorization, verifyToken) == Anonymous
    ensures ResolveForMeals(authorization, verifyToken) == None
  {
    if authorization.Some? {
      BearerTokenShape(authorization.value);
    }
  }

  /** For a two-part header, `predict_meal` claims the verified subject, and rejects the request
      when `verify_token` gives no identity or an empty one. */
  lemma {:induction false} TwoPartHeaderVerdict(scheme: string, token: string, verifyToken: string -> Option<string>)
    requires ' ' !in scheme && ' ' !in token
    ensures ResolveForPredict(Some(scheme + " " + token), verifyToken) ==
              if Truthy(verifyToken(token)) then Claimed(verifyToken(token).value) else Rejected
  {
    SchemeNotChecked(scheme, token);
  }

  /** `get_meals` resolves the same identity as `predict_meal`, except that it never rejects:
      where `predict_meal` would answer 401, `get_meals` proceeds as anonymous. */
  lemma ResolutionsAgree(authorization: Option<string>, verifyToken: string -> Option<string>)
    ensures ResolveForMeals(authorization, verifyToken) ==
              match ResolveForPredict(authorization, verifyToken)
              case Claimed(u) => Some(u)
              case _ => None
  {
  }
}
