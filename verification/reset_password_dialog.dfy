/**
 * The reset-password dialog: the generated password (twelve characters drawn from an
 * alphabet without look-alike characters), the length check, and the call to the
 * `reset-operator-password` function.
 */
module ResetPasswordDialog {
  import opened Wrappers
  import opened Store

  /** The generator's alphabet, 55 characters: letters and digits without I, O, i, l, o, 0
      and 1, written as its three runs. */
  const UpperRun := "ABCDEFGHJKLMNPQRSTUVWXYZ"
  const LowerRun := "abcdefghjkmnpqrstuvwxyz"
  const DigitRun := "23456789"
  const Alphabet := UpperRun + LowerRun + DigitRun
  const GeneratedLength := 12
  const MinPasswordLength := 6
  /** How the success message names an operator without a display name. */
  const FallbackOperatorName := "operator"

  /** One draw of `Math.floor(Math.random() * chars.length)`: an index into the alphabet. */
  predicate ValidDraws(draws: seq<nat>) {
    forall i :: 0 <= i < |draws| ==> draws[i] < |Alphabet|
  }

  /** The password a sequence of draws spells. */
  function Spelled(draws: seq<nat>): (r: string)
    requires ValidDraws(draws)
    ensures |r| == |draws|
    ensures forall i :: 0 <= i < |draws| ==> r[i] == Alphabet[draws[i]]
  {
    seq(|draws|, i requires 0 <= i < |draws| => Alphabet[draws[i]])
  }

  /** A character the generator may produce. */
  predicate InAlphabet(c: char) {
    c in Alphabet
  }

  /** Look-alike characters the alphabet leaves out. */
  predicate Ambiguous(c: char) {
    c == 'I' || c == 'O' || c == 'i' || c == 'l' || c == 'o' || c == '0' || c == '1'
  }

  /** No character of `s` is a look-alike. */
  predicate NoLookAlike(s: string) {
    forall k :: 0 <= k < |s| ==> !Ambiguous(s[k])
  }

  /** The alphabet holds no look-alike, run by run. */
  lemma AlphabetClean()
    ensures NoLookAlike(Alphabet)
  {
    RunsClean();
    NoLookAlikeAppend(UpperRun, LowerRun);
    NoLookAlikeAppend(UpperRun + LowerRun, DigitRun);
  }

  lemma RunsClean()
    ensures NoLookAlike(UpperRun) && NoLookAlike(LowerRun) && NoLookAlike(DigitRun)
  {
  }

  lemma NoLookAlikeAppend(a: string, b: string)
    requires NoLookAlike(a) && NoLookAlike(b)
    ensures NoLookAlike(a + b)
  {
    forall k | 0 <= k < |a + b|
      ensures !Ambiguous((a + b)[k])
    {
      if k >= |a| {
        assert (a + b)[k] == b[k - |a|];
      }
    }
  }

  /** No character of the alphabet is a look-alike. */
  lemma AlphabetUnambiguous(c: char)
    requires InAlphabet(c)
    ensures !Ambiguous(c)
  {
    AlphabetClean();
    var k :| 0 <= k < |Alphabet| && Alphabet[k] == c;
  }

  /** Every spelled password uses the alphabet only, so it holds no look-alike. */
  lemma SpelledUnambiguous(draws: seq<nat>)
    requires ValidDraws(draws)
    ensures forall i :: 0 <= i < |draws| ==> InAlphabet(Spelled(draws)[i]) && !Ambiguous(Spelled(draws)[i])
  {
    forall i | 0 <= i < |draws|
      ensures InAlphabet(Spelled(draws)[i]) && !Ambiguous(Spelled(draws)[i])
    {
      assert Spelled(draws)[i] == Alphabet[draws[i]];
      AlphabetUnambiguous(Spelled(draws)[i]);
    }
  }

  /** Conversely, every string over the alphabet is spelled by some draws. */
  lemma EveryPasswordReachable(p: string)
    requires forall i :: 0 <= i < |p| ==> InAlphabet(p[i])
    ensures exists draws :: ValidDraws(draws) && Spelled(draws) == p
  {
    var draws := seq(|p|, i requires 0 <= i < |p| => IndexIn(Alphabet, p[i]));
    assert ValidDraws(draws);
    assert Spelled(draws) == p;
  }

  /** The position of `c` in `s`. */
  function IndexIn(s: string, c: char): (k: nat)
    requires c in s
    ensures k < |s| && s[k] == c
  {
    if s[0] == c then 0 else 1 + IndexIn(s[1..], c)
  }

  /** `generatePassword`: twelve characters, one per draw. */
  method GeneratePassword(draws: seq<nat>) returns (password: string)
    requires |draws| == GeneratedLength && ValidDraws(draws)
    ensures password == Spelled(draws)
    ensures |password| == GeneratedLength && |password| >= MinPasswordLength
  {
    password := "";
    for i := 0 to GeneratedLength
      invariant password == Spelled(draws[..i])
    {
      password := password + [Alphabet[draws[i]]];
    }
    assert draws[..GeneratedLength] == draws;
  }

  /** The operator the dialog was opened for. */
  datatype OperatorRef = OperatorRef(userId: string, displayName: Option<string>)

  /** The body sent to `reset-operator-password`. */
  datatype ResetBody = ResetBody(userId: string, newPassword: string)

  datatype Outcome = NoOperator | TooShort | PasswordReset(operatorName: string) | Failed

  /** `operator.display_name || "operator"`. */
  function OperatorName(op: OperatorRef): (r: string)
    ensures Truthy(op.displayName) ==> r == op.displayName.value
    ensures !Truthy(op.displayName) ==> r == FallbackOperatorName
  {
    if Truthy(op.displayName) then op.displayName.value else FallbackOperatorName
  }

  class ResetPasswordForm {
    var newPassword: string
    var isLoading: bool
    var open: bool

    constructor (open: bool)
      ensures newPassword == "" && !isLoading && this.open == open
    {
      newPassword := "";
      isLoading := false;
      this.open := open;
    }

    /** The generate button: the field takes a freshly spelled password. */
    method Generate(draws: seq<nat>)
      requires |draws| == GeneratedLength && ValidDraws(draws)
      modifies this`newPassword
      ensures newPassword == Spelled(draws)
    {
      newPassword := GeneratePassword(draws);
    }

    /** `handleSubmit`: nothing without an operator; a password shorter than 6 characters is
        refused; otherwise the operator's id and the password are sent, and a success clears
        the field and closes the dialog while a failure keeps both. */
    method HandleSubmit(operator: Option<OperatorRef>, reply: InvokeReply)
      returns (sent: Option<ResetBody>, outcome: Outcome)
      modifies this`newPassword, this`isLoading, this`open
      ensures operator.None? ==> sent.None? && outcome == NoOperator
      ensures operator.Some? && |old(newPassword)| < MinPasswordLength ==> sent.None? && outcome == TooShort
      ensures sent.None? ==> newPassword == old(newPassword) && open == old(open) && isLoading == old(isLoading)
      ensures operator.Some? && |old(newPassword)| >= MinPasswordLength ==>
                sent == Some(ResetBody(operator.value.userId, old(newPassword))) && !isLoading
      ensures sent.Some? && InvokeFailed(reply) ==>
                outcome == Failed && newPassword == old(newPassword) && open == old(open)
      ensures sent.Some? && !InvokeFailed(reply) ==>
                outcome == PasswordReset(OperatorName(operator.value)) && newPassword == "" && !open
    {
      if operator.None? {
        return None, NoOperator;
      }
      if |newPassword| < MinPasswordLength {
        return None, TooShort;
      }
      isLoading := true;
      sent := Some(ResetBody(operator.value.userId, newPassword));
      if InvokeFailed(reply) {
        outcome := Failed;
      } else {
        outcome := PasswordReset(OperatorName(operator.value));
        newPassword := "";
        open := false;
      }
      isLoading := false;
    }
  }
}
