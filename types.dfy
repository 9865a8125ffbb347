/** The record types shared by the views and the application shell. */
module Types {

  /** A value that may be absent (`null` in the application). */
  datatype Option<+T> = None | Some(value: T)

  /** One recall card; its position in the deck, not its id, is what navigation uses. */
  datatype Flashcard = Flashcard(id: string, question: string, answer: string, category: string)

  /** One multiple-choice item. `correctAnswer` comes from the remote service unchecked,
      so it is an arbitrary integer and need not index into `options`. */
  datatype QuizQuestion = QuizQuestion(
    id: string,
    question: string,
    options: seq<string>,
    correctAnswer: int,
    explanation: string)

  /** The study material produced by one successful upload. */
  datatype StudySession = StudySession(topic: string, flashcards: seq<Flashcard>, quiz: seq<QuizQuestion>)

  /** The five screens of the application shell. */
  datatype AppState = Idle | Processing | Dashboard | Quiz | Flashcards
}
