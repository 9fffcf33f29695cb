/** What the two sign-in front ends share: the form fields and the reading
    of the backend's plain-text answer, which is either a token or a
    `code::message` status line. */
module Auth {
  import opened Base
  import opened Strings

  datatype Field = Fullname | Email | Role | Password | ConfirmPassword

  /** The JSON body posted to `/users/signin` or `/users/signup`. */
  datatype Request =
    | SignIn(email: string, password: string)
    | SignUp(fullname: string, email: string, role: string, password: string)

  /** Answers longer than this are tokens. */
  const TokenLength: nat := 20
  const StatusSeparator: string := "::"

  predicate IsToken(res: string) {
    |res| > TokenLength
  }

  datatype Status = Status(code: string, message: string)

  /** `parts = res.split("::")`, `code = parts[0]` and
      `message = parts.slice(1).join("::") || fallback`. */
  function Decode(res: string, fallback: string): (s: Status)
    ensures IndexOf(res, StatusSeparator).None? ==> s == Status(res, fallback)
    ensures IndexOf(res, StatusSeparator).Some? ==>
      var i := IndexOf(res, StatusSeparator).value;
      && s.code == res[..i]
      && s.message == (if res[i + |StatusSeparator|..] == "" then fallback else res[i + |StatusSeparator|..])
  {
    SplitHeadTail(res, StatusSeparator);
    var parts := Split(res, StatusSeparator);
    var message := Join(parts[1..], StatusSeparator);
    Status(parts[0], if message == "" then fallback else message)
  }

  /** The code never contains the separator. */
  lemma CodeHasNoSeparator(res: string, fallback: string)
    ensures !Contains(Decode(res, fallback).code, StatusSeparator)
  {
    if IndexOf(res, StatusSeparator).Some? {
      BeforeFirstHasNoSeparator(res, StatusSeparator);
    }
  }

  /** The backend's status line for a code without colons and a non-empty
      message reads back as that code and message. */
  lemma DecodeStatusLine(code: string, message: string, fallback: string)
    requires ':' !in code && message != ""
    ensures Decode(code + StatusSeparator + message, fallback) == Status(code, message)
  {
    var s := code + StatusSeparator + message;
    assert s[|code|..|code| + 2] == StatusSeparator;
    assert OccursAt(s, StatusSeparator, |code|);
    forall j | 0 <= j < |code|
      ensures !OccursAt(s, StatusSeparator, j)
    {
      assert s[j] == code[j];
      assert code[j] in code;
    }
    assert IndexOf(s, StatusSeparator) == Some(|code|);
    assert s[..|code|] == code;
    assert s[|code| + 2..] == message;
  }

  /** An answer without the separator is all code, with the fallback
      message. */
  lemma DecodeWithoutSeparator(res: string, fallback: string)
    requires !Contains(res, StatusSeparator)
    ensures Decode(res, fallback) == Status(res, fallback)
  {
  }
}
