/** The new-topic form (components/create-topic-form.tsx): the tag picker's
    add and remove, the guards in front of the submit request, the request
    it sends, and how the form settles on the answer. */
module TopicForm {
  import opened Common
  import opened Seqs
  import opened ForumTopics

  /** `handleAddTag`: the tag goes on the end unless it is already chosen. */
  function AddTag(tags: seq<string>, tag: string): (r: seq<string>)
    ensures tag in r
    ensures tag in tags ==> r == tags
    ensures tag !in tags ==> r == tags + [tag]
    ensures NoDup(tags) ==> NoDup(r)
  {
    if tag in tags then tags else tags + [tag]
  }

  /** `handleRemoveTag`: every copy of the tag dropped, the rest in order. */
  function RemoveTag(tags: seq<string>, tag: string): (r: seq<string>)
    ensures tag !in r
    ensures forall t :: t in r <==> t in tags && t != tag
  {
    Without(tags, tag)
  }

  /** Choosing the same tag twice is choosing it once. */
  lemma AddTagTwice(tags: seq<string>, tag: string)
    ensures AddTag(AddTag(tags, tag), tag) == AddTag(tags, tag)
  {
  }

  /** Removing a chosen tag closes the gap it leaves: the tags before and
      after it keep their order. */
  lemma RemoveTagKeepsOrder(before: seq<string>, tag: string, after: seq<string>)
    requires tag !in before && tag !in after
    ensures RemoveTag(before + [tag] + after, tag) == before + after
  {
    calc {
      Without(before + [tag] + after, tag);
      { WithoutAppend(before + [tag], after, tag); }
      Without(before + [tag], tag) + Without(after, tag);
      { WithoutAppend(before, [tag], tag); }
      Without(before, tag) + Without([tag], tag) + Without(after, tag);
      { assert Without([tag], tag) == []; WithoutAbsent(before, tag); WithoutAbsent(after, tag); }
      before + [] + after;
    }
    assert before + [] + after == before + after;
  }

  /** Removing keeps a duplicate-free list duplicate-free. */
  lemma RemoveTagNoDup(tags: seq<string>, tag: string)
    requires NoDup(tags)
    ensures NoDup(RemoveTag(tags, tag))
  {
    NoDupCount(tags);
    NoDupCount(RemoveTag(tags, tag));
    forall x ensures Count(RemoveTag(tags, tag), x) <= 1 {
      CountWithout(tags, tag, x);
    }
  }

  /** Adding a new tag and removing it again gives the list back. */
  lemma AddThenRemove(tags: seq<string>, tag: string)
    requires tag !in tags
    ensures RemoveTag(AddTag(tags, tag), tag) == tags
  {
    WithoutAppend(tags, [tag], tag);
    WithoutAbsent(tags, tag);
  }

  /** The form's state. `spot` is the id of the selected spot. */
  datatype Form = Form(title: string, content: string, tags: seq<string>, error: Option<string>,
                       loading: bool, spot: Option<Id>)

  function EmptyForm(): Form { Form("", "", [], None, false, None) }

  const NoTagError := "Please select at least one tag"

  /** What pressing submit does: nothing without a signed-in user, an
      error without a tag, else the request goes out. */
  datatype Submission = Ignored | Rejected(form: Form) | Sent(form: Form, request: TopicRequest)

  function Submit(f: Form, user: Option<UserId>): (s: Submission)
    ensures user.None? <==> s.Ignored?
    ensures s.Rejected? <==> user.Some? && f.tags == []
    ensures s.Rejected? ==> s.form == f.(error := Some(NoTagError))
    ensures s.Sent? ==> s.form == f.(loading := true, error := None)
    ensures s.Sent? ==> s.request == TopicRequest(f.title, f.content, f.tags, f.spot, user)
  {
    if user.None? then Ignored
    else if |f.tags| == 0 then Rejected(f.(error := Some(NoTagError)))
    else Sent(f.(loading := true, error := None), TopicRequest(f.title, f.content, f.tags, f.spot, user))
  }

  /** How the request ended: a 2xx answer, a non-2xx answer with field
      errors or with an optional message, or a thrown fetch. */
  datatype Answer =
    | Created
    | FieldErrors(fields: seq<(string, seq<string>)>)
    | Message(message: string)
    | Unreachable

  function JoinWith(parts: seq<string>, sep: string): string {
    if parts == [] then "" else if |parts| == 1 then parts[0] else parts[0] + sep + JoinWith(parts[1..], sep)
  }

  /** One `field: error, error` line per rejected field. */
  function FieldLines(fields: seq<(string, seq<string>)>): (lines: seq<string>)
    ensures |lines| == |fields|
    ensures forall i :: 0 <= i < |fields| ==> lines[i] == fields[i].0 + ": " + JoinWith(fields[i].1, ", ")
  {
    if fields == [] then [] else [fields[0].0 + ": " + JoinWith(fields[0].1, ", ")] + FieldLines(fields[1..])
  }

  /** The message the form shows for a failed request. */
  function FailureMessage(a: Answer): string
    requires !a.Created?
  {
    match a
    case FieldErrors(fields) => "Validation errors:\n" + JoinWith(FieldLines(fields), "\n")
    case Message(m) => if m == "" then "Failed to create topic" else m
    case Unreachable => "An unexpected error occurred. Please try again."
  }

  /** The form after the answer: cleared on success, the failure message
      shown otherwise; never left loading. */
  function Settle(f: Form, a: Answer): (g: Form)
    ensures !g.loading
    ensures a.Created? ==> g.title == "" && g.content == "" && g.tags == [] && g.spot == None && g.error == f.error
    ensures !a.Created? ==> g == f.(loading := false, error := Some(FailureMessage(a)))
  {
    if a.Created? then Form("", "", [], f.error, false, None)
    else f.(loading := false, error := Some(FailureMessage(a)))
  }

  /** A submit that is answered with success leaves the empty form. */
  lemma SubmitAndCreate(f: Form, user: UserId)
    requires f.tags != []
    ensures Submit(f, Some(user)).Sent?
    ensures Settle(Submit(f, Some(user)).form, Created) == EmptyForm()
  {
  }

  /** Tags picked with the picker reach the request duplicate-free. */
  lemma {:induction false} PickedTagsNoDup(picks: seq<string>)
    ensures NoDup(Picked(picks))
  {
    if picks != [] {
      PickedTagsNoDup(picks[..|picks| - 1]);
    }
  }

  /** The tag list after choosing `picks` in order from an empty form. */
  function Picked(picks: seq<string>): seq<string> {
    if picks == [] then [] else AddTag(Picked(picks[..|picks| - 1]), picks[|picks| - 1])
  }
}
