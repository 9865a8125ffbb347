/** The flashcard screen: a position in a non-empty deck and which face of the card is up. */
module FlashcardView {
  import opened Types

  /** The component's two pieces of state. */
  datatype CardState = CardState(currentIndex: nat, isFlipped: bool)

  /** The state when the flashcard screen is mounted: first card, question face up. */
  function Initial(): (s: CardState)
    ensures s.currentIndex == 0 && !s.isFlipped
  {
    CardState(0, false)
  }

  // ---------------------------------------------------------------------------
  // Index arithmetic of a deck of `n` cards

  /** The position after Next, `(i + 1) % n`: the following card, or the first card
      after the last one. */
  function NextIndex(i: nat, n: nat): (j: nat)
    requires n >= 1
    ensures j < n
    ensures i + 1 < n ==> j == i + 1
    ensures i == n - 1 ==> j == 0
  {
    (i + 1) % n
  }

  /** The position after Previous, `(i - 1 + n) % n`: the card before, or the last card
      before the first one. */
  function PrevIndex(i: nat, n: nat): (j: nat)
    requires n >= 1
    ensures j < n
    ensures 0 < i < n ==> j == i - 1
    ensures i == 0 ==> j == n - 1
  {
    (i - 1 + n) % n
  }

  /** Previous undoes Next, and Next undoes Previous. */
  lemma NextPrevInverse(i: nat, n: nat)
    requires i < n
    ensures PrevIndex(NextIndex(i, n), n) == i
    ensures NextIndex(PrevIndex(i, n), n) == i
  {
  }

  /** The position after `k` presses of Next. */
  function NextTimes(i: nat, n: nat, k: nat): (j: nat)
    requires i < n
    ensures j < n
    decreases k
  {
    if k == 0 then i else NextIndex(NextTimes(i, n, k - 1), n)
  }

  /** `a` presses and then `b` more are `a + b` presses. */
  lemma {:induction false} NextTimesAdd(i: nat, n: nat, a: nat, b: nat)
    requires i < n
    ensures NextTimes(i, n, a + b) == NextTimes(NextTimes(i, n, a), n, b)
    decreases b
  {
    if b > 0 {
      NextTimesAdd(i, n, a, b - 1);
    }
  }

  /** Before the end of the deck, each press moves one card forward. */
  lemma {:induction false} NextTimesWithinDeck(i: nat, n: nat, k: nat)
    requires i + k < n
    ensures NextTimes(i, n, k) == i + k
    decreases k
  {
    if k > 0 {
      NextTimesWithinDeck(i, n, k - 1);
    }
  }

  /** Pressing Next once per card brings every position back to itself. */
  lemma NextCycle(i: nat, n: nat)
    requires i < n
    ensures NextTimes(i, n, n) == i
  {
    var toEnd := n - 1 - i;
    NextTimesWithinDeck(i, n, toEnd);
    NextTimesAdd(i, n, toEnd, 1);
    assert NextTimes(i, n, toEnd + 1) == 0;
    NextTimesAdd(i, n, toEnd + 1, i);
    NextTimesWithinDeck(0, n, i);
  }

  // ---------------------------------------------------------------------------
  // The handlers

  /** Next: turn the card face down and move forward with wraparound. */
  function Next(s: CardState, n: nat): (t: CardState)
    requires n >= 1
    ensures !t.isFlipped && t.currentIndex == NextIndex(s.currentIndex, n)
  {
    CardState(NextIndex(s.currentIndex, n), false)
  }

  /** Previous: turn the card face down and move back with wraparound. */
  function Prev(s: CardState, n: nat): (t: CardState)
    requires n >= 1
    ensures !t.isFlipped && t.currentIndex == PrevIndex(s.currentIndex, n)
  {
    CardState(PrevIndex(s.currentIndex, n), false)
  }

  /** Flip: show the other face of the same card. */
  function Flip(s: CardState): (t: CardState)
    ensures t.currentIndex == s.currentIndex && t.isFlipped != s.isFlipped
  {
    s.(isFlipped := !s.isFlipped)
  }

  /** Flipping twice shows the face that was up before. */
  lemma FlipTwice(s: CardState)
    ensures Flip(Flip(s)) == s
  {
  }

  // ---------------------------------------------------------------------------
  // The keyboard

  /** What a key press asks for. */
  datatype KeyAction = GoNext | GoPrev | ToggleFlip | Exit | Ignore

  /** The dispatch chain of the keydown listener, tried in order. */
  function ActionFor(key: string): (a: KeyAction)
    ensures a == GoNext <==> key == "ArrowRight"
    ensures a == GoPrev <==> key == "ArrowLeft"
    ensures a == ToggleFlip <==> key == " " || key == "Enter"
    ensures a == Exit <==> key == "Escape"
  {
    if key == "ArrowRight" then GoNext
    else if key == "ArrowLeft" then GoPrev
    else if key == " " || key == "Enter" then ToggleFlip
    else if key == "Escape" then Exit
    else Ignore
  }

  /** The state after a key press. Escape leaves the screen through the caller and changes
      nothing here; so does any key the chain does not name. */
  function Dispatch(s: CardState, n: nat, key: string): (t: CardState)
    requires n >= 1
    ensures ActionFor(key) in {Exit, Ignore} ==> t == s
  {
    match ActionFor(key)
    case GoNext => Next(s, n)
    case GoPrev => Prev(s, n)
    case ToggleFlip => Flip(s)
    case Exit => s
    case Ignore => s
  }

  /** A sequence of key presses; the position stays on a card throughout. */
  function RunKeys(s: CardState, n: nat, keys: seq<string>): (t: CardState)
    requires n >= 1 && s.currentIndex < n
    ensures t.currentIndex < n
    decreases |keys|
  {
    if keys == [] then s else RunKeys(Dispatch(s, n, keys[0]), n, keys[1..])
  }

  /** `k` presses of the right arrow land where `k` presses of Next do, face down. */
  lemma {:induction false} RightArrowPresses(s: CardState, n: nat, k: nat)
    requires n >= 1 && s.currentIndex < n
    ensures RunKeys(s, n, seq(k, _ => "ArrowRight"))
         == if k == 0 then s else CardState(NextTimes(s.currentIndex, n, k), false)
    decreases k
  {
    if k > 0 {
      var keys := seq(k, _ => "ArrowRight");
      assert keys[0] == "ArrowRight" && keys[1..] == seq(k - 1, _ => "ArrowRight");
      var t := Next(s, n);
      RightArrowPresses(t, n, k - 1);
      NextTimesAdd(s.currentIndex, n, 1, k - 1);
    }
  }

  /** Pressing the right arrow once per card returns to the same card, face down. */
  lemma RightArrowCycle(s: CardState, n: nat)
    requires n >= 1 && s.currentIndex < n
    ensures RunKeys(s, n, seq(n, _ => "ArrowRight")) == CardState(s.currentIndex, false)
  {
    RightArrowPresses(s, n, n);
    NextCycle(s.currentIndex, n);
  }

  // ---------------------------------------------------------------------------
  // The component

  /** The mounted flashcard screen over a fixed deck. */
  class FlashcardSession {
    const cards: seq<Flashcard>
    var currentIndex: nat
    var isFlipped: bool

    /** The component's state as a value. */
    function State(): CardState
      reads this
    {
      CardState(currentIndex, isFlipped)
    }

    ghost predicate Valid()
      reads this
    {
      currentIndex < |cards|
    }

    /** Mounting requires a card: with none, the first render reads a card that does not
        exist and fails on its fields. */
    constructor (cards: seq<Flashcard>)
      requires |cards| >= 1
      ensures this.cards == cards
      ensures Valid() && State() == Initial()
    {
      this.cards := cards;
      currentIndex := 0;
      isFlipped := false;
    }

    /** The card on screen. */
    function Card(): (c: Flashcard)
      reads this
      requires Valid()
      ensures c in cards
    {
      cards[currentIndex]
    }

    /** The Next button and the right arrow. */
    method HandleNext()
      requires Valid()
      modifies this
      ensures Valid() && State() == Next(old(State()), |cards|)
    {
      isFlipped := false;
      currentIndex := (currentIndex + 1) % |cards|;
    }

    /** The Previous button and the left arrow. */
    method HandlePrev()
      requires Valid()
      modifies this
      ensures Valid() && State() == Prev(old(State()), |cards|)
    {
      isFlipped := false;
      currentIndex := (currentIndex - 1 + |cards|) % |cards|;
    }

    /** A click on the card or the flip button. */
    method ToggleFlip()
      requires Valid()
      modifies this
      ensures Valid() && State() == Flip(old(State()))
    {
      isFlipped := !isFlipped;
    }

    /** The keydown listener. It reports whether it asked the caller to leave the screen
        and whether it suppressed the browser's default action (scrolling on Space). */
    method HandleKeyDown(key: string) returns (exit: bool, preventDefault: bool)
      requires Valid()
      modifies this
      ensures Valid() && State() == Dispatch(old(State()), |cards|, key)
      ensures exit <==> key == "Escape"
      ensures preventDefault <==> key == " "
    {
      exit, preventDefault := false, false;
      if key == "ArrowRight" {
        HandleNext();
      } else if key == "ArrowLeft" {
        HandlePrev();
      } else if key == " " || key == "Enter" {
        if key == " " {
          preventDefault := true;
        }
        ToggleFlip();
      } else if key == "Escape" {
        exit := true;
      }
    }
  }
}
