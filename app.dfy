/** The application shell: which screen is shown, the study session it holds, the error
    banner, the onboarding dialog and the colour theme. */
module AppShell {
  import opened Types

  /** The largest accepted upload, 20 MiB. */
  const MaxUploadBytes: nat := 20 * 1024 * 1024
  const PdfType: string := "application/pdf"

  const NotPdfMessage: string :=
    "The file you selected is not a PDF. Please upload a document ending in .pdf."
  const TooLargeMessage: string :=
    "This file is too large (over 20MB). Please try a smaller PDF for faster processing."
  const AnalysisFailedMessage: string :=
    "We encountered an issue while analyzing your document."
  const ReadFailedMessage: string :=
    "Failed to read the file from your device. Check your file permissions."
  const SystemErrorMessage: string :=
    "An unexpected system error occurred. Please refresh and try again."

  /** The onboarding dialog has three pages. */
  const TutorialStepCount: nat := 3

  /** Keys of the browser's persisted preferences. */
  const ThemeKey: string := "theme"
  const TutorialKey: string := "hasCompletedTutorial"

  // ---------------------------------------------------------------------------
  // Uploads

  /** What the browser reports about the selected file. */
  datatype SelectedFile = SelectedFile(mimeType: string, size: nat)

  /** The verdict of the checks made before any processing. */
  datatype Gate = NoFile | Rejected(message: string) | Accepted

  /** No file: nothing happens. Otherwise the type is checked first and the size second;
      a PDF of at most 20 MiB passes. */
  function CheckUpload(file: Option<SelectedFile>): (g: Gate)
    ensures g == NoFile <==> file.None?
    ensures g == Accepted <==>
      file.Some? && file.value.mimeType == PdfType && file.value.size <= MaxUploadBytes
    ensures file.Some? && file.value.mimeType != PdfType ==> g == Rejected(NotPdfMessage)
    ensures file.Some? && file.value.mimeType == PdfType && file.value.size > MaxUploadBytes ==>
      g == Rejected(TooLargeMessage)
  {
    match file
    case None => NoFile
    case Some(f) =>
      if f.mimeType != PdfType then Rejected(NotPdfMessage)
      else if f.size > MaxUploadBytes then Rejected(TooLargeMessage)
      else Accepted
  }

  /** A PDF of exactly 20 MiB passes; one byte more, or a 25 MiB PDF, is refused for its
      size; a file of the wrong type is refused for its type whatever its size. */
  lemma UploadLimitBoundary(size: nat)
    ensures CheckUpload(Some(SelectedFile(PdfType, 20 * 1024 * 1024))) == Accepted
    ensures CheckUpload(Some(SelectedFile(PdfType, 20 * 1024 * 1024 + 1))) == Rejected(TooLargeMessage)
    ensures CheckUpload(Some(SelectedFile(PdfType, 25 * 1024 * 1024))) == Rejected(TooLargeMessage)
    ensures CheckUpload(Some(SelectedFile("text/plain", size))) == Rejected(NotPdfMessage)
  {
  }

  /** How the file read and the remote generation that follow an accepted upload end:
      with a session, with the message of the error the generation threw, with a read
      error, or with an error thrown while starting the read. */
  datatype Outcome =
    | Generated(session: StudySession)
    | GenerationFailed(message: string)
    | ReadFailed
    | SystemError

  /** The banner for a failed outcome: the thrown error's message, or a fixed text when
      that message is empty. It is never empty. */
  function FailureMessage(outcome: Outcome): (m: string)
    requires !outcome.Generated?
    ensures m != []
    ensures outcome.GenerationFailed? && outcome.message != [] ==> m == outcome.message
  {
    match outcome
    case GenerationFailed(message) => if message != [] then message else AnalysisFailedMessage
    case ReadFailed => ReadFailedMessage
    case SystemError => SystemErrorMessage
  }

  // ---------------------------------------------------------------------------
  // Persisted preferences

  /** Reading a persisted preference: absent keys read as no value. */
  function Lookup(prefs: map<string, string>, key: string): (r: Option<string>)
    ensures r.None? <==> key !in prefs
    ensures r.Some? ==> r.value == prefs[key]
  {
    if key in prefs then Some(prefs[key]) else None
  }

  /** The theme at start-up: a non-empty saved value decides (dark exactly when it is
      "dark"); no saved value, or an empty one, defers to the system preference. */
  function InitialDarkMode(saved: Option<string>, systemPrefersDark: bool): (dark: bool)
    ensures saved == Some("dark") ==> dark
    ensures saved.Some? && saved.value != "" && saved.value != "dark" ==> !dark
    ensures saved.None? || saved == Some("") ==> dark == systemPrefersDark
  {
    if saved.Some? && saved.value != "" then saved.value == "dark" else systemPrefersDark
  }

  /** The value persisted for a theme; reading it back at the next start gives the same
      theme whatever the system prefers. */
  function ThemeValue(dark: bool): (v: string)
    ensures forall system: bool :: InitialDarkMode(Some(v), system) == dark
  {
    if dark then "dark" else "light"
  }

  /** The onboarding dialog opens at start-up unless its completion was saved. */
  function ShowTutorialInitially(saved: Option<string>): (show: bool)
    ensures saved == Some("true") ==> !show
    ensures saved.None? || (saved.Some? && saved.value != "true") ==> show
  {
    saved != Some("true")
  }

  // ---------------------------------------------------------------------------
  // The component

  /** The mounted application. `prefs` stands for the browser's persisted preferences. */
  class App {
    var state: AppState
    var session: Option<StudySession>
    var error: Option<string>
    var isDarkMode: bool
    var showTutorial: bool
    var tutorialStep: nat
    var prefs: map<string, string>

    /** The onboarding page exists, a study screen always has a session to show, and the
        persisted theme mirrors the one on screen. */
    ghost predicate Valid()
      reads this
    {
      tutorialStep < TutorialStepCount &&
      (state in {Dashboard, Flashcards, Quiz} ==> session.Some?) &&
      Lookup(prefs, ThemeKey) == Some(ThemeValue(isDarkMode))
    }

    /** Start-up from the saved preferences and the system's colour preference; the
        theme effect then persists the chosen theme. */
    constructor (saved: map<string, string>, systemPrefersDark: bool)
      ensures Valid()
      ensures state == Idle && session == None && error == None
      ensures isDarkMode == InitialDarkMode(Lookup(saved, ThemeKey), systemPrefersDark)
      ensures showTutorial == ShowTutorialInitially(Lookup(saved, TutorialKey)) && tutorialStep == 0
      ensures prefs == saved[ThemeKey := ThemeValue(isDarkMode)]
    {
      state := Idle;
      session := None;
      error := None;
      var dark := InitialDarkMode(Lookup(saved, ThemeKey), systemPrefersDark);
      isDarkMode := dark;
      showTutorial := ShowTutorialInitially(Lookup(saved, TutorialKey));
      tutorialStep := 0;
      prefs := saved[ThemeKey := ThemeValue(dark)];
    }

    /** The theme button; the theme effect persists the new theme. */
    method ToggleDarkMode()
      requires Valid()
      modifies this`isDarkMode, this`prefs
      ensures Valid()
      ensures isDarkMode == !old(isDarkMode)
      ensures prefs == old(prefs)[ThemeKey := ThemeValue(isDarkMode)]
    {
      isDarkMode := !isDarkMode;
      prefs := prefs[ThemeKey := ThemeValue(isDarkMode)];
    }

    /** The file input: a refused file only sets the banner; an accepted one clears it and
        starts processing. The session is not touched. */
    method HandleFileUpload(file: Option<SelectedFile>)
      requires Valid()
      modifies this`error, this`state
      ensures Valid()
      ensures CheckUpload(file) == NoFile ==> error == old(error) && state == old(state)
      ensures CheckUpload(file).Rejected? ==>
        error == Some(CheckUpload(file).message) && state == old(state)
      ensures CheckUpload(file) == Accepted ==> error == None && state == Processing
    {
      if file.None? {
        return;
      }
      var f := file.value;
      if f.mimeType != PdfType {
        error := Some(NotPdfMessage);
        return;
      }
      if f.size > MaxUploadBytes {
        error := Some(TooLargeMessage);
        return;
      }
      error := None;
      state := Processing;
    }

    /** The end of processing. A session is stored only on success, which opens the
        dashboard; every failure shows a message and returns to the upload screen. The
        callbacks do not look at the current screen. */
    method CompleteProcessing(outcome: Outcome)
      requires Valid()
      modifies this`session, this`state, this`error
      ensures Valid()
      ensures outcome.Generated? ==>
        session == Some(outcome.session) && state == Dashboard && error == old(error)
      ensures !outcome.Generated? ==>
        session == old(session) && state == Idle && error == Some(FailureMessage(outcome))
    {
      match outcome
      case Generated(content) =>
        session := Some(content);
        state := Dashboard;
      case _ =>
        error := Some(FailureMessage(outcome));
        state := Idle;
    }

    /** The logo and "Upload a different document": back to an empty upload screen. */
    method Reset()
      requires Valid()
      modifies this`state, this`session, this`error
      ensures Valid()
      ensures state == Idle && session == None && error == None
    {
      state := Idle;
      session := None;
      error := None;
    }

    /** The close button of the error banner. */
    method DismissError()
      requires Valid()
      modifies this`error
      ensures Valid() && error == None
    {
      error := None;
    }

    /** The Flashcards card of the dashboard, rendered only on the dashboard. */
    method OpenFlashcards()
      requires Valid() && state == Dashboard
      modifies this`state
      ensures Valid() && state == Flashcards && session.Some?
    {
      state := Flashcards;
    }

    /** The Quiz card of the dashboard, rendered only on the dashboard. */
    method OpenQuiz()
      requires Valid() && state == Dashboard
      modifies this`state
      ensures Valid() && state == Quiz && session.Some?
    {
      state := Quiz;
    }

    /** The back action of the flashcard and quiz screens. */
    method BackToDashboard()
      requires Valid() && state in {Flashcards, Quiz}
      modifies this`state
      ensures Valid() && state == Dashboard && session.Some?
    {
      state := Dashboard;
    }

    /** Closing the onboarding dialog, and saving that it was completed. */
    method CompleteTutorial()
      requires Valid()
      modifies this`showTutorial, this`prefs
      ensures Valid()
      ensures !showTutorial && prefs == old(prefs)[TutorialKey := "true"]
      ensures !ShowTutorialInitially(Lookup(prefs, TutorialKey))
    {
      showTutorial := false;
      prefs := prefs[TutorialKey := "true"];
    }

    /** The dialog's main button: the next page, or completion on the last page. */
    method AdvanceTutorial()
      requires Valid()
      modifies this`tutorialStep, this`showTutorial, this`prefs
      ensures Valid()
      ensures old(tutorialStep) < TutorialStepCount - 1 ==>
        tutorialStep == old(tutorialStep) + 1 && showTutorial == old(showTutorial) && prefs == old(prefs)
      ensures old(tutorialStep) == TutorialStepCount - 1 ==>
        tutorialStep == old(tutorialStep) && !showTutorial && prefs == old(prefs)[TutorialKey := "true"]
    {
      if tutorialStep < TutorialStepCount - 1 {
        tutorialStep := tutorialStep + 1;
      } else {
        CompleteTutorial();
      }
    }
  }
}
