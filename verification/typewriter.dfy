/**
 * The typewriter effect in the page header: a self-rescheduling timer that
 * types a phrase one character per tick, pauses, deletes it one character
 * per tick, pauses, and moves on to the next phrase, cyclically.
 *
 * The timer itself is not modelled: a tick returns the delay it would pass
 * to `setTimeout`, together with the text it writes into the header.
 */
module Typewriter {

  /** The phrases cycled through, in order. */
  const Phrases: seq<string> := [
    "whoami",
    "echo \"Welcome to my portfolio\"",
    "sudo apt-get install success",
    "ping ambition -c unlimited"
  ]

  /** Delays, in milliseconds, handed to the next `setTimeout`. */
  const TypingDelay: nat := 100
  const DeletingDelay: nat := 50
  const EndOfPhrasePause: nat := 2000
  const NextPhrasePause: nat := 500
  /** The value `typeSpeed` holds before the first tick. */
  const InitialTypeSpeed: nat := 100

  /** The three globals the tick reads and writes. */
  datatype State = State(phraseIndex: nat, charIndex: int, isDeleting: bool)

  /** What one tick produces: the new state, the text shown and the next delay. */
  datatype TickResult = TickResult(next: State, text: string, delay: nat)

  /** The state before the first tick. */
  const Start: State := State(0, 0, false)

  /**
   * JavaScript's `s.substring(0, end)`: `end` is clamped into 0..|s|, so the
   * result is always a prefix of `s`.
   */
  function Substring(s: string, end: int): (r: string)
    ensures r <= s
    ensures |r| == if end < 0 then 0 else if end > |s| then |s| else end
  {
    if end < 0 then "" else if end > |s| then s else s[..end]
  }

  /** Every phrase has at least one character, and there is at least one. */
  predicate WellFormed(phrases: seq<string>) {
    |phrases| > 0 && forall i :: 0 <= i < |phrases| ==> |phrases[i]| > 0
  }

  /**
   * The reachable states: while typing, the offset is strictly below the
   * phrase length (the tick that reaches it switches to deleting); while
   * deleting, it is at least 1 (the tick that reaches 0 switches back).
   */
  predicate Reachable(phrases: seq<string>, s: State) {
    && s.phraseIndex < |phrases|
    && var len := |phrases[s.phraseIndex]|;
       if s.isDeleting then 1 <= s.charIndex <= len else 0 <= s.charIndex < len
  }

  /** One call of the tick handler. */
  function Step(phrases: seq<string>, s: State): (r: TickResult)
    requires s.phraseIndex < |phrases|
    ensures r.next.phraseIndex < |phrases|
    ensures r.delay in {TypingDelay, DeletingDelay, EndOfPhrasePause, NextPhrasePause}
  {
    var phrase := phrases[s.phraseIndex];
    var text := if s.isDeleting then Substring(phrase, s.charIndex - 1)
                else Substring(phrase, s.charIndex + 1);
    var c := if s.isDeleting then s.charIndex - 1 else s.charIndex + 1;
    var speed := if s.isDeleting then DeletingDelay else TypingDelay;
    if !s.isDeleting && c == |phrase| then
      TickResult(State(s.phraseIndex, c, true), text, EndOfPhrasePause)
    else if s.isDeleting && c == 0 then
      TickResult(State((s.phraseIndex + 1) % |phrases|, c, false), text, NextPhrasePause)
    else
      TickResult(State(s.phraseIndex, c, s.isDeleting), text, speed)
  }

  /** The state after `k` ticks from `s`. */
  function Run(phrases: seq<string>, s: State, k: nat): (r: State)
    requires s.phraseIndex < |phrases|
    ensures r.phraseIndex < |phrases|
  {
    if k == 0 then s else Step(phrases, Run(phrases, s, k - 1)).next
  }

  lemma PhrasesWellFormed()
    ensures WellFormed(Phrases) && Reachable(Phrases, Start)
  {
  }

  /**
   * A tick keeps the state reachable, and the text it shows is exactly the
   * prefix of the current phrase whose length is the new offset.
   */
  lemma StepKeepsReachable(phrases: seq<string>, s: State)
    requires WellFormed(phrases) && Reachable(phrases, s)
    ensures var r := Step(phrases, s);
      && Reachable(phrases, r.next)
      && r.text == phrases[r.next.phraseIndex][..r.next.charIndex]
  {
  }

  /**
   * The four transitions and the delay each one picks: a typing tick moves
   * forward with delay 100 and a deleting tick moves back with delay 50,
   * except that reaching the full length flips to deleting with a 2000 ms
   * pause, and reaching 0 flips to typing on the next phrase with 500 ms.
   */
  lemma StepTransitions(phrases: seq<string>, s: State)
    requires WellFormed(phrases) && Reachable(phrases, s)
    ensures var r := Step(phrases, s);
      var i, c, len := s.phraseIndex, s.charIndex, |phrases[s.phraseIndex]|;
      && (!s.isDeleting && c + 1 < len ==>
            r.next == State(i, c + 1, false) && r.delay == TypingDelay)
      && (!s.isDeleting && c + 1 == len ==>
            r.next == State(i, len, true) && r.delay == EndOfPhrasePause)
      && (s.isDeleting && c > 1 ==>
            r.next == State(i, c - 1, true) && r.delay == DeletingDelay)
      && (s.isDeleting && c == 1 ==>
            r.next == State((i + 1) % |phrases|, 0, false) && r.delay == NextPhrasePause)
  {
  }

  /** From the start of phrase `i`, the first |phrase| ticks type it out. */
  lemma {:induction false} TypingTrajectory(phrases: seq<string>, i: nat, k: nat)
    requires WellFormed(phrases) && i < |phrases| && k <= |phrases[i]|
    ensures Run(phrases, State(i, 0, false), k) == State(i, k, k == |phrases[i]|)
  {
    if k > 0 {
      TypingTrajectory(phrases, i, k - 1);
    }
  }

  /** The next |phrase| ticks delete it and land on the next phrase. */
  lemma {:induction false} DeletingTrajectory(phrases: seq<string>, i: nat, j: nat)
    requires WellFormed(phrases) && i < |phrases| && j <= |phrases[i]|
    ensures var len := |phrases[i]|;
      Run(phrases, State(i, 0, false), len + j) ==
        if j < len then State(i, len - j, true) else State((i + 1) % |phrases|, 0, false)
  {
    if j == 0 {
      TypingTrajectory(phrases, i, |phrases[i]|);
    } else {
      DeletingTrajectory(phrases, i, j - 1);
    }
  }

  /**
   * A full cycle: from (i, 0, typing), exactly 2·|phrases[i]| ticks reach
   * (i + 1 mod n, 0, typing), and every state strictly in between is still on
   * phrase `i` with a positive offset or in deleting mode.
   */
  lemma FullCycle(phrases: seq<string>, i: nat, k: nat)
    requires WellFormed(phrases) && i < |phrases| && k <= 2 * |phrases[i]|
    ensures var r := Run(phrases, State(i, 0, false), k);
      && (k == 2 * |phrases[i]| ==> r == State((i + 1) % |phrases|, 0, false))
      && (0 < k < 2 * |phrases[i]| ==> r.phraseIndex == i && (r.charIndex > 0 || r.isDeleting))
  {
    var len := |phrases[i]|;
    if k <= len {
      TypingTrajectory(phrases, i, k);
    } else {
      DeletingTrajectory(phrases, i, k - len);
    }
  }

  /** The header's typewriter: the globals of the script and the shown text. */
  class Engine {
    const phrases: seq<string>
    var phraseIndex: nat
    var charIndex: int
    var isDeleting: bool
    var typeSpeed: nat
    /** The `textContent` of the header element. */
    var text: string

    ghost function Snapshot(): State
      reads this
    {
      State(phraseIndex, charIndex, isDeleting)
    }

    ghost predicate Valid()
      reads this
    {
      WellFormed(phrases) && Reachable(phrases, Snapshot())
    }

    /** Page load: the phrase list and the initial globals; `text` is what the markup holds. */
    constructor (initialText: string)
      ensures Valid()
      ensures phrases == Phrases && Snapshot() == Start
      ensures typeSpeed == InitialTypeSpeed && text == initialText
    {
      phrases := Phrases;
      phraseIndex, charIndex, isDeleting := 0, 0, false;
      typeSpeed := InitialTypeSpeed;
      text := initialText;
    }

    /** One timer callback; returns the delay of the next one. */
    method Tick() returns (delay: nat)
      requires Valid()
      modifies this
      ensures Valid()
      ensures var r := Step(phrases, old(Snapshot()));
        Snapshot() == r.next && text == r.text && delay == r.delay
      ensures typeSpeed == delay
      ensures text == phrases[phraseIndex][..charIndex]
    {
      StepKeepsReachable(phrases, Snapshot());
      var currentPhrase := phrases[phraseIndex];
      if isDeleting {
        text := Substring(currentPhrase, charIndex - 1);
        charIndex := charIndex - 1;
        typeSpeed := DeletingDelay;
      } else {
        text := Substring(currentPhrase, charIndex + 1);
        charIndex := charIndex + 1;
        typeSpeed := TypingDelay;
      }
      if !isDeleting && charIndex == |currentPhrase| {
        isDeleting := true;
        typeSpeed := EndOfPhrasePause;
      } else if isDeleting && charIndex == 0 {
        isDeleting := false;
        phraseIndex := (phraseIndex + 1) % |phrases|;
        typeSpeed := NextPhrasePause;
      }
      delay := typeSpeed;
    }
  }
}
