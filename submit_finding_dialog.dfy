/**
 * `src/components/SubmitFindingDialog.tsx`: the form for submitting or editing a
 * finding. The effect fills it from the finding being edited or resets it to the
 * template; `handleSubmit` checks the fields, marks the form as submitting, and after
 * its delay hands the fields to `onSubmit`, resets the form and closes the dialog. The
 * delay splits `handleSubmit` in two methods.
 */
module SubmitFindingDialog {
  import opened Common
  import opened JsStrings
  import opened FindingsStore

  /** `FINDING_TEMPLATE`. */
  const Template: string := "## Summary\n" + TemplateRest

  const TemplateRest: string :=
    "Brief description of the vulnerability.\n\n## Vulnerability Detail\n"
    + "Detailed explanation of the vulnerability and how it can be exploited.\n\n## Impact\n"
    + "Describe the potential impact on the protocol and users.\n\n## Code Snippet\n"
    + "```solidity\n// Paste the affected code here\n```\n\n## Tool Used\nManual Review\n\n"
    + "## Recommendation\nDescribe how to fix the vulnerability.\n"

  /** The argument of `onSubmit`. */
  datatype Draft = Draft(severity: string, title: string, content: string)

  datatype Toast = Toast(title: string, description: string)

  /** The check of `handleSubmit`: a severity is chosen and neither title nor content is blank. */
  predicate Accepts(severity: string, title: string, content: string) {
    severity != "" && Trim(title) != "" && Trim(content) != ""
  }

  /** A field of whitespace only is rejected like an empty one. */
  lemma BlankFieldsRejected(severity: string, title: string, content: string)
    ensures Accepts(severity, title, content) <==> severity != "" && !AllWhitespace(title) && !AllWhitespace(content)
  {
    TrimEmptyIff(title);
    TrimEmptyIff(content);
  }

  /** The template is not blank: after a reset, a severity and a title are all a submission needs. */
  lemma TemplateAccepted(severity: string, title: string)
    ensures Accepts(severity, title, Template) <==> severity != "" && !AllWhitespace(title)
  {
    TrimEmptyIff(title);
    StartsWithNonWhitespace("## Summary\n", TemplateRest);
  }

  /** A string that starts with a non-whitespace character is not blank. */
  lemma StartsWithNonWhitespace(head: string, rest: string)
    requires head != [] && !IsWhitespace(head[0])
    ensures Trim(head + rest) != ""
  {
    TrimEmptyIff(head + rest);
    assert (head + rest)[0] == head[0];
  }

  /** The toast shown after an accepted submission. */
  function DoneToast(isEditing: bool): (t: Toast)
    ensures t.title == if isEditing then "Finding updated" else "Finding submitted"
  {
    if isEditing then Toast("Finding updated", "Your finding has been updated successfully.")
    else Toast("Finding submitted", "Your finding has been submitted for review.")
  }

  const MissingFields := Toast("Missing fields", "Please fill in all required fields.")

  /** The form's state and the dialog's `open` flag that `onOpenChange` sets. */
  class SubmitForm {
    var severity: string
    var title: string
    var content: string
    var isSubmitting: bool
    var open: bool

    /** The fields are the defaults: no severity, no title, the template. */
    predicate IsReset()
      reads this
    {
      severity == "" && title == "" && content == Template
    }

    constructor(open: bool)
      ensures IsReset() && !isSubmitting && this.open == open
    {
      severity := "";
      title := "";
      content := Template;
      isSubmitting := false;
      this.open := open;
    }

    /** The effect on `[editingFinding, open]`: fill the form from the finding, or reset it. */
    method Sync(editing: Option<Finding>)
      modifies this
      ensures editing.Some? ==> severity == editing.value.severity && title == editing.value.title && content == editing.value.content
      ensures editing.None? ==> IsReset()
      ensures isSubmitting == old(isSubmitting) && open == old(open)
    {
      if editing.Some? {
        severity := editing.value.severity;
        title := editing.value.title;
        content := editing.value.content;
      } else {
        severity := "";
        title := "";
        content := Template;
      }
    }

    method SetSeverity(s: string)
      modifies this
      ensures severity == s && title == old(title) && content == old(content)
      ensures isSubmitting == old(isSubmitting) && open == old(open)
    {
      severity := s;
    }

    method SetTitle(t: string)
      modifies this
      ensures title == t && severity == old(severity) && content == old(content)
      ensures isSubmitting == old(isSubmitting) && open == old(open)
    {
      title := t;
    }

    method SetContent(c: string)
      modifies this
      ensures content == c && severity == old(severity) && title == old(title)
      ensures isSubmitting == old(isSubmitting) && open == old(open)
    {
      content := c;
    }

    /**
     * `handleSubmit` up to its delay: a rejected form shows the missing-fields toast and
     * changes nothing; an accepted one is marked as submitting and its fields, untrimmed,
     * are what the rest of the handler sends.
     */
    method BeginSubmit() returns (draft: Option<Draft>, toast: Option<Toast>)
      modifies this
      ensures draft.None? <==> !Accepts(old(severity), old(title), old(content))
      ensures draft.None? ==> toast == Some(MissingFields) && isSubmitting == old(isSubmitting)
      ensures draft.Some? ==> draft.value == Draft(old(severity), old(title), old(content)) && toast.None? && isSubmitting
      ensures severity == old(severity) && title == old(title) && content == old(content) && open == old(open)
    {
      if !Accepts(severity, title, content) {
        return None, Some(MissingFields);
      }
      isSubmitting := true;
      draft, toast := Some(Draft(severity, title, content)), None;
    }

    /** `handleSubmit` after its delay: `onSubmit(draft)`, the toast, the reset, and the dialog closed. */
    method FinishSubmit(draft: Draft, isEditing: bool) returns (submitted: Draft, toast: Toast)
      modifies this
      ensures submitted == draft && toast == DoneToast(isEditing)
      ensures IsReset() && !isSubmitting && !open
    {
      submitted, toast := draft, DoneToast(isEditing);
      severity := "";
      title := "";
      content := Template;
      isSubmitting := false;
      open := false;
    }
  }
}
