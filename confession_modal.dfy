/**
 * The confession form of the home page, used both to create a confession and
 * to edit one: the effect that refills it, the client-side checks, the
 * payload (with the hashtag tokenising) and what a submit does to its state.
 */
module ConfessionModal {
  import opened Wrappers
  import opened Strings
  import opened Ids
  import opened ConfessionModel
  import opened ConfessionController

  /** `formData`: every field is the text of an input; hashtags are typed space-separated. */
  datatype Form = Form(text: string, secretCode: string, currentSecretCode: string, category: string, hashtags: string)

  /** The blank create form. */
  const EmptyForm: Form := Form("", "", "", "General", "")

  /** The part of `editingConfession` the form reads: a confession as the API returned it. */
  datatype EditTarget = EditTarget(id: ConfessionId, text: string, category: Option<string>, hashtags: Option<seq<string>>)

  /** The object handed to `onSubmit`: `currentSecretCode` is only set when editing. */
  datatype Payload = Payload(text: string, category: string, hashtags: seq<string>, secretCode: string,
                             currentSecretCode: Option<string>)

  /** The form the effect installs: the confession's own fields with both codes blank, or the blank form. */
  function FormFor(editing: Option<EditTarget>): (f: Form)
    ensures editing.None? ==> f == EmptyForm
    ensures editing.Some? ==> f.text == editing.value.text && f.secretCode == "" && f.currentSecretCode == ""
    ensures editing.Some? && editing.value.category.Some? && editing.value.category.value != "" ==>
      f.category == editing.value.category.value
    ensures editing.Some? && (editing.value.category.None? || editing.value.category == Some("")) ==> f.category == "General"
  {
    match editing
    case None => EmptyForm
    case Some(t) =>
      var category := if t.category.Some? && t.category.value != "" then t.category.value else "General";
      Form(t.text, "", "", category, JoinSpace(t.hashtags.GetOr([])))
  }

  /** The first failing client check, in the order handleSubmit makes them. */
  function SubmitError(hasUser: bool, f: Form, editing: bool): (r: Option<string>)
    ensures r.None? <==> hasUser && 10 <= |Trim(f.text)| && (editing ==> f.currentSecretCode != "") && 4 <= |f.secretCode|
    ensures !hasUser ==> r == Some("Please login first")
    ensures hasUser && |Trim(f.text)| < 10 ==> r == Some("Confession must be at least 10 characters")
    ensures hasUser && 10 <= |Trim(f.text)| && editing && f.currentSecretCode == "" ==>
      r == Some("Please enter current secret code to edit")
    ensures hasUser && 10 <= |Trim(f.text)| && !editing && |f.secretCode| < 4 ==>
      r == Some("Secret code must be at least 4 characters")
    ensures hasUser && 10 <= |Trim(f.text)| && editing && f.currentSecretCode != "" && |f.secretCode| < 4 ==>
      r == Some("New secret code must be at least 4 characters")
  {
    if !hasUser then Some("Please login first")
    else if |Trim(f.text)| < 10 then Some("Confession must be at least 10 characters")
    else if editing && f.currentSecretCode == "" then Some("Please enter current secret code to edit")
    else if !editing && |f.secretCode| < 4 then Some("Secret code must be at least 4 characters")
    else if editing && |f.secretCode| < 4 then Some("New secret code must be at least 4 characters")
    else None
  }

  /** Although the edit form calls the new code optional, no edit passes the checks without one of at least 4 characters. */
  lemma EditNeedsNewCode(f: Form)
    requires SubmitError(true, f, true).None?
    ensures 4 <= |f.secretCode| && f.currentSecretCode != ""
  {
  }

  /** The hashtag field's tokenising: trim, lower-case, split on white-space runs, drop empty pieces. */
  function BuildHashtags(raw: string): (r: seq<string>)
    ensures forall i :: 0 <= i < |r| ==> r[i] != [] && HasNoSpace(r[i]) && HasNoUpper(r[i])
  {
    var pieces := SplitOnSpace(Lower(Trim(raw)));
    SplitFromPieces(Lower(Trim(raw)), "");
    NonEmptyClean(pieces);
    NonEmpty(pieces)
  }

  /** BuildHashtags is the filter of the split of the lower-cased trim. */
  lemma BuildHashtagsSteps(raw: string)
    ensures BuildHashtags(raw) == NonEmpty(SplitOnSpace(Lower(Trim(raw))))
  {
  }

  /** Tags joined by spaces when editing starts are parsed back to the same tags on submit. */
  lemma HashtagsRoundTrip(tags: seq<string>)
    requires forall i :: 0 <= i < |tags| ==> tags[i] != [] && HasNoSpace(tags[i]) && HasNoUpper(tags[i])
    ensures BuildHashtags(JoinSpace(tags)) == tags
  {
    if tags == [] {
      EmptyHashtagField();
    } else {
      var joined := JoinSpace(tags);
      BuildHashtagsSteps(joined);
      JoinedTagsClean(tags);
      JoinedTagsSplit(tags);
    }
  }

  /** Joining clean tags gives a string that trimming and lower-casing leave alone. */
  lemma JoinedTagsClean(tags: seq<string>)
    requires |tags| > 0
    requires forall i :: 0 <= i < |tags| ==> tags[i] != [] && HasNoSpace(tags[i]) && HasNoUpper(tags[i])
    ensures Lower(Trim(JoinSpace(tags))) == JoinSpace(tags)
  {
    JoinSpaceEnds(tags);
    TrimOfTrimmed(JoinSpace(tags));
    JoinSpaceNoUpper(tags);
    LowerOfLower(JoinSpace(tags));
  }

  /** Splitting joined clean tags and dropping empty pieces gives the tags. */
  lemma JoinedTagsSplit(tags: seq<string>)
    requires |tags| > 0
    requires forall i :: 0 <= i < |tags| ==> tags[i] != [] && HasNoSpace(tags[i])
    ensures NonEmpty(SplitOnSpace(JoinSpace(tags))) == tags
  {
    SplitJoin(tags);
    NonEmptyOfNonEmpty(tags);
  }

  /** An empty hashtag field gives no hashtags. */
  lemma EmptyHashtagField()
    ensures BuildHashtags("") == []
  {
    BuildHashtagsSteps("");
    TrimOfTrimmed("");
    assert Lower(Trim("")) == "";
    assert SplitOnSpace("") == [""];
    assert NonEmpty([""]) == [];
  }

  /** The tags of a confession being edited survive an edit that does not touch the hashtag field. */
  lemma EditKeepsHashtags(t: EditTarget)
    requires t.hashtags.Some?
    requires forall i :: 0 <= i < |t.hashtags.value| ==>
      t.hashtags.value[i] != [] && HasNoSpace(t.hashtags.value[i]) && HasNoUpper(t.hashtags.value[i])
    ensures BuildHashtags(FormFor(Some(t)).hashtags) == t.hashtags.value
  {
    HashtagsRoundTrip(t.hashtags.value);
  }

  /** The payload for the checked form. */
  function BuildPayload(f: Form, editing: bool): (p: Payload)
    ensures p.text == Trim(f.text) && p.category == f.category && p.secretCode == f.secretCode
    ensures p.hashtags == BuildHashtags(f.hashtags)
    ensures p.currentSecretCode.Some? <==> editing
    ensures editing ==> p.currentSecretCode == Some(f.currentSecretCode)
  {
    Payload(Trim(f.text), f.category, BuildHashtags(f.hashtags), f.secretCode,
            if editing then Some(f.currentSecretCode) else None)
  }

  /** The create payload as the request body the server validates. */
  function CreateRequest(p: Payload): CreateBody {
    CreateBody(Some(p.text), Some(p.secretCode), Some(p.category), Some(p.hashtags))
  }

  /** The update payload as the request body the server validates. */
  function UpdateRequest(p: Payload): UpdateBody {
    UpdateBody(Some(p.text), Some(p.secretCode), Some(p.category), Some(p.hashtags), p.currentSecretCode)
  }

  lemma BuiltHashtagsAccepted(raw: string)
    ensures HashtagsAccepted(Some(BuildHashtags(raw)))
  {
    var tags := BuildHashtags(raw);
    forall i | 0 <= i < |tags| ensures Trim(tags[i]) != "" {
      TrimOfTrimmed(tags[i]);
    }
  }

  /**
   * A create form that passes the client checks is accepted by the server's
   * schema once its text is at most 2000 characters and its category is one
   * of the five: the client checks no upper bound and no category.
   */
  lemma CreateChecksMeetSchema(f: Form)
    requires SubmitError(true, f, false).None?
    requires |Trim(f.text)| <= 2000 && ParseCategory(f.category).Some?
    ensures ValidateCreate(CreateRequest(BuildPayload(f, false))).Success?
  {
    BuiltHashtagsAccepted(f.hashtags);
  }

  /**
   * An edit form that passes the client checks is accepted by the server's
   * schema exactly when its current code has at least 4 characters: the
   * client only asks for a non-empty one.
   */
  lemma EditChecksMeetSchema(f: Form)
    requires SubmitError(true, f, true).None?
    requires |Trim(f.text)| <= 2000 && ParseCategory(f.category).Some?
    ensures ValidateUpdate(UpdateRequest(BuildPayload(f, true))).Success? <==> 4 <= |f.currentSecretCode|
  {
    BuiltHashtagsAccepted(f.hashtags);
  }

  /** `err.response?.data?.error || 'An error occurred'`. */
  function ServerMessage(m: Option<string>): (r: string)
    ensures r != ""
    ensures m.Some? && m.value != "" ==> r == m.value
  {
    if m.Some? && m.value != "" then m.value else "An error occurred"
  }

  /** The modal's form state. */
  class ConfessionForm {
    var form: Form
    var error: string

    constructor ()
      ensures form == EmptyForm && error == ""
    {
      form := EmptyForm;
      error := "";
    }

    /** The effect run when the modal opens or the confession to edit changes. */
    method Open(editing: Option<EditTarget>)
      modifies this
      ensures form == FormFor(editing) && error == ""
    {
      form := FormFor(editing);
      error := "";
    }

    /** handleChange: the named input takes the typed value. */
    method HandleChange(name: string, value: string)
      modifies this
      ensures error == old(error)
      ensures form == match name
        case "text" => old(form).(text := value)
        case "secretCode" => old(form).(secretCode := value)
        case "currentSecretCode" => old(form).(currentSecretCode := value)
        case "category" => old(form).(category := value)
        case "hashtags" => old(form).(hashtags := value)
        case _ => old(form)
    {
      match name
      case "text" => form := form.(text := value);
      case "secretCode" => form := form.(secretCode := value);
      case "currentSecretCode" => form := form.(currentSecretCode := value);
      case "category" => form := form.(category := value);
      case "hashtags" => form := form.(hashtags := value);
      case _ =>
    }

    /**
     * handleSubmit. `outcome` is how the `onSubmit` promise settles: resolved,
     * or rejected with the server's `error` field when the response has one.
     * `sent` is what was passed to `onSubmit`, `closed` whether `onClose` is called.
     */
    method HandleSubmit(hasUser: bool, editing: Option<EditTarget>, outcome: Result<(), Option<string>>)
      returns (sent: Option<(Payload, Option<ConfessionId>)>, closed: bool)
      modifies this
      ensures SubmitError(hasUser, old(form), editing.Some?).Some? ==>
        && sent.None? && !closed && form == old(form)
        && error == SubmitError(hasUser, old(form), editing.Some?).value
      ensures SubmitError(hasUser, old(form), editing.Some?).None? ==>
        sent == Some((BuildPayload(old(form), editing.Some?), if editing.Some? then Some(editing.value.id) else None))
      ensures SubmitError(hasUser, old(form), editing.Some?).None? && outcome.Success? ==>
        form == EmptyForm && closed && error == ""
      ensures SubmitError(hasUser, old(form), editing.Some?).None? && outcome.Failure? ==>
        form == old(form) && !closed && error == ServerMessage(outcome.error)
    {
      error := "";
      var failed := SubmitError(hasUser, form, editing.Some?);
      if failed.Some? {
        error := failed.value;
        return None, false;
      }
      var payload := BuildPayload(form, editing.Some?);
      sent := Some((payload, if editing.Some? then Some(editing.value.id) else None));
      if outcome.Success? {
        form := EmptyForm;
        closed := true;
      } else {
        error := ServerMessage(outcome.error);
        closed := false;
      }
    }
  }
}
