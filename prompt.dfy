/** The yes/no confirmation helper (internal/utils/prompt.go). */
module Prompt {
  import opened Wrappers
  import opened Text

  /**
   * ConfirmPrompt, given the line bufio.Reader.ReadString returned (None when
   * it returned an error, including end of input before a newline): the
   * answer counts as yes when, trimmed and lower-cased, it is "y" or "yes".
   */
  function ConfirmPrompt(line: Option<string>): (r: bool)
    ensures line.None? ==> !r
    ensures r ==> ToLower(TrimSpace(line.value)) == "y" || ToLower(TrimSpace(line.value)) == "yes"
    ensures line.Some? && (ToLower(TrimSpace(line.value)) == "y" || ToLower(TrimSpace(line.value)) == "yes") ==> r
  {
    match line
    case None => false
    case Some(response) =>
      var answer := ToLower(TrimSpace(response));
      answer == "y" || answer == "yes"
  }

  /** The only characters that lower-case to a given lower-case ASCII letter. */
  lemma LowersTo(c: char, l: char)
    requires 'a' <= l <= 'z'
    ensures LowerChar(c) == l <==> c == l || c as int == l as int - 32
  {
  }

  /**
   * The accepted spellings, for an answer without surrounding blanks: "y" or
   * "yes" in any mix of upper and lower case, and nothing else.
   */
  lemma {:induction false} AcceptedSpellings(answer: string)
    requires TrimSpace(answer) == answer
    ensures ConfirmPrompt(Some(answer)) <==>
      (|answer| == 1 && answer[0] in "yY") ||
      (|answer| == 3 && answer[0] in "yY" && answer[1] in "eE" && answer[2] in "sS")
  {
    var lower := ToLower(answer);
    if |answer| == 1 {
      LowersTo(answer[0], 'y');
      assert lower == "y" <==> lower[0] == 'y';
    } else if |answer| == 3 {
      LowersTo(answer[0], 'y');
      LowersTo(answer[1], 'e');
      LowersTo(answer[2], 's');
      assert lower == "yes" <==> lower[0] == 'y' && lower[1] == 'e' && lower[2] == 's';
    } else {
      assert |lower| == |answer|;
    }
  }

  /** "yes" is one of them. */
  lemma YesAccepted()
    ensures ConfirmPrompt(Some("yes"))
  {
    TrimUntouched("yes", IsSpace);
    AcceptedSpellings("yes");
  }

  /** Blanks around the answer, the newline included, do not matter. */
  lemma SurroundingBlanksIgnored(answer: string)
    ensures ConfirmPrompt(Some(answer + "\n")) == ConfirmPrompt(Some(answer))
  {
    TrimDropsTrailingCut(answer, IsSpace, '\n');
  }

  /** A blank before the answer does not matter either. */
  lemma LeadingBlankIgnored(answer: string)
    ensures ConfirmPrompt(Some(" " + answer)) == ConfirmPrompt(Some(answer))
  {
    TrimDropsLeadingCut(' ', answer, IsSpace);
  }

  /** Another word that starts like yes is a no: "yep". */
  lemma YepRejected()
    ensures !ConfirmPrompt(Some("yep"))
  {
    TrimUntouched("yep", IsSpace);
    assert ToLower("yep")[2] == 'p';
  }

  /** "n" and the empty line are a no. */
  lemma NoAndEmptyRejected()
    ensures !ConfirmPrompt(Some("n"))
    ensures !ConfirmPrompt(Some(""))
  {
    TrimUntouched("n", IsSpace);
    TrimUntouched("", IsSpace);
    assert ToLower("n")[0] == 'n';
  }
}
