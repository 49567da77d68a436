/** The typing effect: a target text revealed one character per timer step,
    with an occasional typo that is shown, erased and corrected, a cursor, and,
    when looping, deletion back to nothing and a fresh start. Each timer
    callback is one method; each Math.random() draw is a parameter. */
module Typing {
  import opened Text
  import opened Wrappers

  datatype CursorStyle = Block | Underscore | Pipe

  /** getCursorChar: the block is the default glyph, and each style has its own. */
  function CursorChar(style: CursorStyle): (c: char)
    ensures c == '█' <==> style == Block
    ensures c == '_' <==> style == Underscore
    ensures c == '|' <==> style == Pipe
  {
    match style
    case Block => '█'
    case Underscore => '_'
    case Pipe => '|'
  }

  /** The keyboard table of simulateTypingError: the three keys next to each
      lower-case letter; every other character has no entry. No letter lists
      itself or an upper-case character among its neighbours. */
  function Neighbours(c: char): (keys: seq<char>)
    ensures 'a' <= c <= 'z' ==> |keys| == 3
    ensures !('a' <= c <= 'z') ==> keys == []
    ensures forall i | 0 <= i < |keys| :: keys[i] != c && !IsUpper(keys[i])
  {
    match c
    case 'a' => ['s', 'q', 'z']
    case 'b' => ['v', 'g', 'n']
    case 'c' => ['x', 'v', 'd']
    case 'd' => ['s', 'f', 'e']
    case 'e' => ['w', 'r', 'd']
    case 'f' => ['d', 'g', 'r']
    case 'g' => ['f', 'h', 't']
    case 'h' => ['g', 'j', 'y']
    case 'i' => ['u', 'o', 'k']
    case 'j' => ['h', 'k', 'u']
    case 'k' => ['j', 'l', 'i']
    case 'l' => ['k', ';', 'o']
    case 'm' => ['n', ',', 'j']
    case 'n' => ['b', 'm', 'h']
    case 'o' => ['i', 'p', 'l']
    case 'p' => ['o', '[', ';']
    case 'q' => ['w', 'a', '1']
    case 'r' => ['e', 't', 'f']
    case 's' => ['a', 'd', 'w']
    case 't' => ['r', 'y', 'g']
    case 'u' => ['y', 'i', 'j']
    case 'v' => ['c', 'b', 'f']
    case 'w' => ['q', 'e', 's']
    case 'x' => ['z', 'c', 's']
    case 'y' => ['t', 'u', 'h']
    case 'z' => ['a', 'x', 's']
    case _ => []
  }

  /** The choice simulateTypingError makes for the next character `next`:
      `roll` is the draw compared with the error probability and `pick` the
      neighbour index drawn after it. A typo happens exactly when the draw is
      below the probability and the lower-cased character has a table entry;
      the wrong character is then one of its neighbours and never `next`
      itself, in either case. */
  function ChooseTypo(next: char, errorProbability: real, roll: real, pick: nat): (typo: Option<char>)
    requires pick < 3
    ensures typo.Some? <==> roll < errorProbability && 'a' <= LowerChar(next) <= 'z'
    ensures typo.Some? ==> typo.value in Neighbours(LowerChar(next)) && typo.value != next
  {
    var keys := Neighbours(LowerChar(next));
    if roll < errorProbability && keys != [] then Some(keys[pick]) else None
  }

  /** A typo excursion in flight: the text shown with the wrong character
      appended, and the character that belongs there. */
  datatype Excursion =
    | Idle
    | WrongShown(withError: string, next: char)
    | Erased(withError: string, next: char)

  class TypingTask {
    const text: string
    const loop: bool
    const errorProbability: real
    const cursorStyle: CursorStyle
    var displayText: string
    var currentIndex: nat
    var isTyping: bool
    var isDeleting: bool
    var excursion: Excursion

    /** `withError` is the committed prefix plus one character other than the
        one that belongs next. */
    ghost predicate IsTypo(withError: string, next: char)
      reads this
    {
      currentIndex < |text| && next == text[currentIndex] &&
      |withError| == currentIndex + 1 &&
      withError[..currentIndex] == text[..currentIndex] &&
      withError[currentIndex] != next
    }

    /** Outside deletion the display is the committed prefix of the text,
        except while a typo is shown. Before typing starts nothing is shown;
        while deleting, everything has been committed and the display is a
        prefix of the text. */
    ghost predicate Valid()
      reads this
    {
      currentIndex <= |text| &&
      (!isTyping ==> displayText == [] && currentIndex == 0 && !isDeleting && excursion == Idle) &&
      (isDeleting ==> loop && currentIndex == |text| && excursion == Idle && displayText <= text) &&
      (!isDeleting ==>
        match excursion
        case Idle => displayText == text[..currentIndex]
        case WrongShown(w, n) => IsTypo(w, n) && displayText == w
        case Erased(w, n) => IsTypo(w, n) && displayText == text[..currentIndex])
    }

    /** The render condition of the cursor: outside deletion and typo
        excursions, the cursor shows exactly while part of the text is still
        to be typed. */
    predicate CursorVisible()
      reads this
      ensures Valid() && !isDeleting && excursion == Idle ==>
        (CursorVisible() <==> |displayText| < |text|)
    {
      currentIndex < |text| || isDeleting
    }

    /** The typing effect schedules a character: typing has started, nothing is
        being deleted, no typo is in flight and text remains. */
    predicate CanType()
      reads this
    {
      isTyping && !isDeleting && excursion == Idle && currentIndex < |text|
    }

    /** The typing effect schedules the switch to deleting. */
    predicate CanFinish()
      reads this
    {
      isTyping && !isDeleting && excursion == Idle && currentIndex >= |text| && loop
    }

    /** The typing effect schedules nothing more. */
    predicate Done()
      reads this
    {
      isTyping && !isDeleting && excursion == Idle && currentIndex >= |text| && !loop
    }

    constructor (text: string, loop: bool := false, errorProbability: real := 0.05,
                 cursorStyle: CursorStyle := Block)
      ensures Valid()
      ensures this.text == text && this.loop == loop
      ensures this.errorProbability == errorProbability && this.cursorStyle == cursorStyle
      ensures displayText == [] && currentIndex == 0 && !isTyping && !isDeleting && excursion == Idle
    {
      this.text := text;
      this.loop := loop;
      this.errorProbability := errorProbability;
      this.cursorStyle := cursorStyle;
      displayText := [];
      currentIndex := 0;
      isTyping := false;
      isDeleting := false;
      excursion := Idle;
    }

    /** The start-delay timeout: typing may begin. */
    method StartTyping()
      requires Valid()
      modifies this`isTyping
      ensures Valid() && isTyping
    {
      isTyping := true;
    }

    /** One typing step for the character at `currentIndex`. Without a typo
        the character is appended and the index advances by one; with a typo
        the wrong character is appended, the index stays, and the erase and
        correction are scheduled. */
    method TypeStep(roll: real, pick: nat)
      requires Valid() && CanType()
      requires pick < 3
      modifies this`displayText, this`currentIndex, this`excursion
      ensures Valid() && isTyping && !isDeleting
      ensures
        var next := old(text[currentIndex]);
        match ChooseTypo(next, errorProbability, roll, pick)
        case None =>
          displayText == old(displayText) + [next] &&
          currentIndex == old(currentIndex) + 1 && excursion == Idle
        case Some(wrong) =>
          displayText == old(displayText) + [wrong] &&
          currentIndex == old(currentIndex) && excursion == WrongShown(displayText, next)
    {
      var nextChar := text[currentIndex];
      var typo := ChooseTypo(nextChar, errorProbability, roll, pick);
      var newText := if typo.Some? then displayText + [typo.value] else displayText + [nextChar];
      if newText == displayText + [nextChar] {
        displayText := newText;
        currentIndex := currentIndex + 1;
      } else {
        displayText := newText;
      }
      excursion := if typo.Some? then WrongShown(newText, nextChar) else Idle;
    }

    /** The first scheduled callback of a typo: drop the wrong character,
        which shows the committed prefix again; the index does not move. */
    method Backspace()
      requires Valid() && excursion.WrongShown?
      modifies this`displayText, this`excursion
      ensures Valid()
      ensures displayText == text[..currentIndex]
      ensures excursion == Erased(old(excursion).withError, old(excursion).next)
    {
      var w := excursion.withError;
      displayText := w[..|w| - 1];
      excursion := Erased(w, excursion.next);
    }

    /** The second scheduled callback of a typo: append the right character
        and advance the index by one. */
    method Correct()
      requires Valid() && excursion.Erased?
      modifies this`displayText, this`currentIndex, this`excursion
      ensures Valid()
      ensures currentIndex == old(currentIndex) + 1
      ensures displayText == text[..currentIndex] == old(displayText) + [old(excursion).next]
      ensures excursion == Idle
    {
      var w := excursion.withError;
      displayText := w[..|w| - 1] + [excursion.next];
      currentIndex := currentIndex + 1;
      excursion := Idle;
    }

    /** One deleting step: drop the last character; on an empty display stop
        deleting and restart from index 0. */
    method DeleteStep()
      requires Valid() && isTyping && isDeleting
      modifies this`displayText, this`currentIndex, this`isDeleting
      ensures Valid() && isTyping
      ensures old(displayText) == [] ==> !isDeleting && currentIndex == 0 && displayText == []
      ensures old(displayText) != [] ==>
        isDeleting && currentIndex == old(currentIndex) &&
        displayText == old(displayText)[..|old(displayText)| - 1]
    {
      if |displayText| == 0 {
        isDeleting := false;
        currentIndex := 0;
      } else {
        displayText := displayText[..|displayText| - 1];
      }
    }

    /** The pause after a complete text when looping: start deleting. */
    method FinishStep()
      requires Valid() && CanFinish()
      modifies this`isDeleting
      ensures Valid() && isDeleting && displayText == text
    {
      isDeleting := true;
    }
  }

  /** Once the whole text is typed without looping, no step is enabled, the
      display is the text and the cursor is hidden. */
  lemma DoneIsFinal(task: TypingTask)
    requires task.Valid() && task.Done()
    ensures !task.CanType() && !task.CanFinish() && !task.isDeleting
    ensures task.excursion == Idle
    ensures task.displayText == task.text && !task.CursorVisible()
  {
  }

  /** A typo excursion ends where a direct step would: the wrong character is
      shown at the index without advancing it, its erasure restores the
      committed prefix, and the correction appends the intended character and
      advances the index by one. */
  method TypoExcursion(task: TypingTask, roll: real, pick: nat)
    requires task.Valid() && task.CanType() && pick < 3
    requires ChooseTypo(task.text[task.currentIndex], task.errorProbability, roll, pick).Some?
    modifies task
    ensures task.Valid() && task.isTyping && !task.isDeleting && task.excursion == Idle
    ensures task.currentIndex == old(task.currentIndex) + 1
    ensures task.displayText == old(task.displayText) + [task.text[old(task.currentIndex)]]
  {
    ghost var i := task.currentIndex;
    task.TypeStep(roll, pick);
    assert task.currentIndex == i && task.displayText[i] != task.text[i];
    task.Backspace();
    assert task.currentIndex == i && task.displayText == task.text[..i];
    task.Correct();
  }

  /** With error probability 0, one typing step per character, whatever the
      draws, types the text exactly, advancing the index by one each time. */
  method TypeWithoutErrors(task: TypingTask, rolls: seq<real>, picks: seq<nat>)
    requires task.Valid() && task.CanType() && task.currentIndex == 0
    requires task.errorProbability <= 0.0
    requires |rolls| == |picks| == |task.text|
    requires forall i | 0 <= i < |rolls| :: 0.0 <= rolls[i] < 1.0 && picks[i] < 3
    modifies task
    ensures task.Valid() && task.excursion == Idle && !task.isDeleting
    ensures task.displayText == task.text && task.currentIndex == |task.text|
  {
    var i := 0;
    while i < |task.text|
      invariant 0 <= i <= |task.text|
      invariant task.Valid() && task.isTyping && !task.isDeleting && task.excursion == Idle
      invariant task.currentIndex == i
    {
      task.TypeStep(rolls[i], picks[i]);
      i := i + 1;
    }
  }

  /** After a complete text when looping, deleting empties the display and
      brings the task back to typing from index 0. */
  method DeleteToRestart(task: TypingTask)
    requires task.Valid() && task.CanFinish()
    modifies task
    ensures task.Valid() && task.isTyping && !task.isDeleting && task.excursion == Idle
    ensures task.displayText == [] && task.currentIndex == 0
  {
    task.FinishStep();
    while task.isDeleting
      invariant task.Valid() && task.isTyping && task.excursion == Idle
      invariant !task.isDeleting ==> task.displayText == [] && task.currentIndex == 0
      decreases |task.displayText| + (if task.isDeleting then 1 else 0)
    {
      task.DeleteStep();
    }
  }
}
