/** The new-song form: its initial state, the visibility select, the
    example template shown as a placeholder, and the submit path that
    validates the form and builds the row inserted into the song table. */
module NewSong {
  import opened Wrappers
  import opened Text

  /** The form state: title, original key, chord-sheet content, visibility. */
  datatype SongForm = SongForm(title: string, key: string, content: string, public: bool)

  /** The row inserted on a successful submit. */
  datatype SongRecord = SongRecord(
    title: string,
    key: string,
    content: string,
    public: bool,
    createdBy: string)

  const TitleError: string := "Please enter a song title"
  const ContentError: string := "Please enter song content"
  const LoginError: string := "You must be logged in to create songs"

  /** The form as the page first shows it: empty title and content, key C,
      public. */
  function InitialForm(): (f: SongForm)
    ensures f.title == "" && f.content == ""
    ensures f.key == "C" && f.public
  {
    SongForm("", "C", "", true)
  }

  /** Submitting: a blank title is reported first, then blank content, then
      a missing user; otherwise the row holds the trimmed title and content,
      the key and visibility as chosen, and the user as owner. */
  function Submit(form: SongForm, userId: Option<string>): (r: Result<SongRecord, string>)
    ensures r.Failure? ==> r.error == TitleError || r.error == ContentError || r.error == LoginError
    ensures r.Failure? && r.error == TitleError <==> Trim(form.title) == ""
    ensures r == Failure(ContentError) <==> Trim(form.title) != "" && Trim(form.content) == ""
    ensures r == Failure(LoginError) <==> Trim(form.title) != "" && Trim(form.content) != "" && userId.None?
    ensures r.Success? ==> userId == Some(r.value.createdBy) && r.value.key == form.key && r.value.public == form.public
    ensures r.Success? ==> r.value.title != "" && r.value.content != ""
  {
    if Trim(form.title) == "" then Failure(TitleError)
    else if Trim(form.content) == "" then Failure(ContentError)
    else if userId.None? then Failure(LoginError)
    else Success(SongRecord(Trim(form.title), form.key, Trim(form.content), form.public, userId.value))
  }

  /** A title of whitespace only is rejected with the title message, whatever
      the content and user: the title check comes first. */
  lemma BlankTitleRejected(form: SongForm, userId: Option<string>)
    requires IsBlank(form.title)
    ensures Submit(form, userId) == Failure(TitleError)
  {
    TrimEmptyIffBlank(form.title);
  }

  /** Content of whitespace only under a real title is rejected with the
      content message, whatever the user. */
  lemma BlankContentRejected(form: SongForm, userId: Option<string>)
    requires !IsBlank(form.title) && IsBlank(form.content)
    ensures Submit(form, userId) == Failure(ContentError)
  {
    TrimEmptyIffBlank(form.title);
    TrimEmptyIffBlank(form.content);
  }

  /** A submit succeeds exactly when title and content are not blank and a
      user is signed in. */
  lemma SubmitSucceedsIff(form: SongForm, userId: Option<string>)
    ensures Submit(form, userId).Success? <==> !IsBlank(form.title) && !IsBlank(form.content) && userId.Some?
  {
    TrimEmptyIffBlank(form.title);
    TrimEmptyIffBlank(form.content);
  }

  /** A stored row carries the trimmed title and content, both non-empty and
      starting and ending with a visible character, the key and visibility
      as chosen, and the signed-in user as owner. */
  lemma SubmittedRecord(form: SongForm, userId: Option<string>)
    requires Submit(form, userId).Success?
    ensures var r := Submit(form, userId).value;
      && r.title == Trim(form.title) && r.content == Trim(form.content)
      && r.title != "" && !IsWhitespace(r.title[0]) && !IsWhitespace(r.title[|r.title| - 1])
      && r.content != "" && !IsWhitespace(r.content[0]) && !IsWhitespace(r.content[|r.content| - 1])
      && r.key == form.key && r.public == form.public && userId == Some(r.createdBy)
  {
  }

  /** The form a stored row would fill in. */
  function FormOf(r: SongRecord): SongForm {
    SongForm(r.title, r.key, r.content, r.public)
  }

  /** Submitting a stored row again, as its owner, stores the same row. */
  lemma ResubmitIsStable(form: SongForm, userId: Option<string>)
    requires Submit(form, userId).Success?
    ensures var r := Submit(form, userId).value;
            Submit(FormOf(r), Some(r.createdBy)) == Success(r)
  {
    TrimIdempotent(form.title);
    TrimIdempotent(form.content);
  }

  /** The untouched form cannot be submitted: its title is empty. */
  lemma InitialFormRejected(userId: Option<string>)
    ensures InitialForm().title == "" && InitialForm().content == ""
    ensures InitialForm().key == "C" && InitialForm().public
    ensures Submit(InitialForm(), userId) == Failure(TitleError)
  {
  }

  // ---------------------------------------------------------------------------
  // Visibility select
  // ---------------------------------------------------------------------------

  /** The value the visibility select shows for the form: one of the two
      offered options, "public" exactly for a public song. */
  function VisibilityValue(public: bool): (v: string)
    ensures v == "public" || v == "private"
    ensures v == "public" <==> public
  {
    if public then "public" else "private"
  }

  /** The form after a visibility value is chosen: public exactly when
      "public" was chosen, every other field as before. */
  function ChooseVisibility(form: SongForm, value: string): (r: SongForm)
    ensures r.public <==> value == "public"
    ensures r.title == form.title && r.key == form.key && r.content == form.content
  {
    form.(public := value == "public")
  }

  /** The select round-trips: it shows "public" exactly for public songs,
      choosing the shown value changes nothing, and choosing one of the two
      offered values makes the select show that value. */
  lemma VisibilityRoundTrip(form: SongForm, value: string)
    ensures VisibilityValue(form.public) == "public" <==> form.public
    ensures ChooseVisibility(form, VisibilityValue(form.public)) == form
    ensures value == "public" || value == "private" ==>
              VisibilityValue(ChooseVisibility(form, value).public) == value
    ensures ChooseVisibility(form, value).(public := form.public) == form
  {
    assert "private" != "public";
  }

  // ---------------------------------------------------------------------------
  // Example template
  // ---------------------------------------------------------------------------

  const ExampleBody: string :=
    "\n\n[C]This is the first line with a [G]chord\n"
    + "[Am]You can place chords [F]anywhere in the [C]line\n\n"
    + "{comment: This is a comment}\n\n"
    + "[C]Write your [G]song using [Am]ChordPro [F]format\n"
    + "[C]Chords appear [G]above the [C]lyrics"

  /** The title the template shows: the form's, or a stand-in when empty;
      never empty itself. */
  function TemplateTitle(form: SongForm): (t: string)
    ensures t != ""
    ensures form.title != "" ==> t == form.title
    ensures form.title == "" ==> t == "Song Title"
  {
    if form.title != "" then form.title else "Song Title"
  }

  /** The placeholder chord sheet, opened by title and key directives and
      closed by the fixed example lines. */
  function ExampleTemplate(form: SongForm): (r: string)
    ensures |ExampleBody| < |r| && r[|r| - |ExampleBody|..] == ExampleBody
  {
    "{title: " + TemplateTitle(form) + "}\n{key: " + form.key + "}" + ExampleBody
  }

  /** The template's title directive is never empty and shows the form title
      whenever there is one; its key directive shows the form key. */
  lemma ExampleTemplateDirectives(form: SongForm)
    ensures TemplateTitle(form) != ""
    ensures form.title != "" ==> TemplateTitle(form) == form.title
    ensures form.title == "" ==> TemplateTitle(form) == "Song Title"
    ensures IsPrefix("{title: " + TemplateTitle(form) + "}\n{key: " + form.key + "}", ExampleTemplate(form))
  {
    var head := "{title: " + TemplateTitle(form) + "}\n{key: " + form.key + "}";
    assert ExampleTemplate(form) == head + ExampleBody;
    assert ExampleTemplate(form)[..|head|] == head;
  }
}
