/** Username checks (backend/backend/validators.py, backend/backend/constants.py). */
module UserValidators {
  import opened Text

  /** MY_USER_PROFILE: the path segment of the current-user endpoint. */
  const MyUserProfile: string := "me"

  /** validate_username: the value is refused when its lower-case form is "me". */
  function UsernameAllowed(value: string): (ok: bool)
    ensures !ok <==> value in {"me", "Me", "mE", "ME"}
  {
    var lowered := Lower(value);
    LowerTwo(value);
    lowered != MyUserProfile
  }

  lemma LowerTwo(value: string)
    ensures Lower(value) == "me" <==> value in {"me", "Me", "mE", "ME"}
  {
    if |value| == 2 {
      assert value[1..][1..] == [];
      assert Lower(value[1..]) == [LowerChar(value[1])] + Lower(value[1..][1..]);
      assert Lower(value) == [LowerChar(value[0]), LowerChar(value[1])];
      if Lower(value) == "me" {
        assert value == [value[0], value[1]];
      }
    }
  }

  /** A character of the class [\w.@+-] of REGULAR_USERNAME; \w is the given class. */
  predicate UsernameChar(c: char, isWord: char -> bool) {
    isWord(c) || c in ".@+-"
  }

  function AllUsernameChars(s: string, isWord: char -> bool): bool {
    s == [] || (UsernameChar(s[0], isWord) && AllUsernameChars(s[1..], isWord))
  }

  /**
   * The RegexValidator built from REGULAR_USERNAME = ^[\w.@+-]+\Z: one or
   * more characters, each a word character or one of . @ + -.
   */
  function MatchesUsernamePattern(s: string, isWord: char -> bool): (ok: bool)
    ensures ok <==> |s| > 0 && forall i :: 0 <= i < |s| ==> UsernameChar(s[i], isWord)
  {
    AllUsernameCharsSpec(s, isWord);
    |s| > 0 && AllUsernameChars(s, isWord)
  }

  lemma {:induction false} AllUsernameCharsSpec(s: string, isWord: char -> bool)
    ensures AllUsernameChars(s, isWord) <==> forall i :: 0 <= i < |s| ==> UsernameChar(s[i], isWord)
  {
    if s != [] {
      AllUsernameCharsSpec(s[1..], isWord);
      assert forall i :: 1 <= i < |s| ==> s[i] == s[1..][i - 1];
    }
  }
}
