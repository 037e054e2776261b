/**
 * The typing reveal of the biography text: the text is captured once, the
 * element is emptied and marked `typing`, and a repeating 20 ms timer
 * appends one character per tick. The first tick that finds nothing left
 * clears the timer and schedules, 500 ms later, the swap of `typing` for
 * `typing-done`.
 *
 * The timers are explicit: `Tick` is one firing of the repeating timer,
 * `Finalize` the firing of the one-shot timer.
 */
module TypingReveal {

  const TypingClass := "typing"
  const DoneClass := "typing-done"

  /** Interval between ticks, and delay before the final class swap, in milliseconds. */
  const TypingSpeedMs: nat := 20
  const FinalizeDelayMs: nat := 500

  /**
   * The state of one reveal: the captured text, the index of the next
   * character, the element's visible text and classes, whether the
   * repeating timer is still set, and whether the final swap is scheduled.
   */
  datatype Reveal = Reveal(
    original: string,
    charIndex: nat,
    text: string,
    classes: set<string>,
    intervalActive: bool,
    finalizePending: bool)

  /**
   * What holds throughout a reveal: the visible text is the prefix typed so
   * far; while a timer is set the element is marked `typing`; at most one
   * timer is set; once the repeating timer is gone the whole text is shown;
   * and once both timers are gone the element is marked done.
   */
  ghost predicate Inv(s: Reveal)
  {
    && s.charIndex <= |s.original|
    && s.text == s.original[..s.charIndex]
    && !(s.intervalActive && s.finalizePending)
    && (s.intervalActive || s.finalizePending ==> TypingClass in s.classes)
    && (!s.intervalActive ==> s.charIndex == |s.original|)
    && (!s.intervalActive && !s.finalizePending ==>
          DoneClass in s.classes && TypingClass !in s.classes)
  }

  /** Starting the reveal on an element with text `content` and classes `classes`. */
  function Started(content: string, classes: set<string>): (s: Reveal)
    ensures Inv(s)
    ensures s.original == content && s.text == [] && s.charIndex == 0
    ensures s.classes == classes + {TypingClass}
    ensures s.intervalActive && !s.finalizePending
  {
    Reveal(content, 0, "", classes + {TypingClass}, true, false)
  }

  /** One firing of the repeating timer. */
  function Ticked(s: Reveal): (r: Reveal)
    requires Inv(s) && s.intervalActive
    ensures Inv(r)
    ensures r.original == s.original && r.classes == s.classes
    ensures s.charIndex < |s.original| ==>
              r.text == s.text + [s.original[s.charIndex]] &&
              r.charIndex == s.charIndex + 1 &&
              r.intervalActive && !r.finalizePending
    ensures s.charIndex == |s.original| ==>
              r.text == s.text && r.charIndex == s.charIndex &&
              !r.intervalActive && r.finalizePending
  {
    if s.charIndex < |s.original| then
      s.(text := s.text + [s.original[s.charIndex]], charIndex := s.charIndex + 1)
    else
      s.(intervalActive := false, finalizePending := true)
  }

  /** The one-shot timer: mark the element done; the text stays as it is. */
  function Finalized(s: Reveal): (r: Reveal)
    requires Inv(s) && s.finalizePending
    ensures Inv(r)
    ensures r.text == s.text && r.text == r.original
    ensures r.classes == s.classes + {DoneClass} - {TypingClass}
    ensures !r.intervalActive && !r.finalizePending
  {
    s.(classes := s.classes + {DoneClass} - {TypingClass}, finalizePending := false)
  }

  /**
   * The state after the repeating timer has had `n` chances to fire: once it
   * is cleared it fires no more, so later chances change nothing.
   */
  function Ticks(s: Reveal, n: nat): (r: Reveal)
    requires Inv(s)
    ensures Inv(r)
    ensures r.original == s.original && r.classes == s.classes
    ensures s.charIndex <= r.charIndex
    decreases n
  {
    if n == 0 then s
    else
      var p := Ticks(s, n - 1);
      if p.intervalActive then Ticked(p) else p
  }

  /** After k <= L ticks exactly the first k characters are shown and the timer is still set. */
  lemma {:induction false} Progress(content: string, classes: set<string>, k: nat)
    requires k <= |content|
    ensures Ticks(Started(content, classes), k) ==
              Reveal(content, k, content[..k], classes + {TypingClass}, true, false)
  {
    if k > 0 {
      Progress(content, classes, k - 1);
      assert content[..k] == content[..k - 1] + [content[k - 1]];
    }
  }

  /**
   * Tick L + 1 appends nothing, clears the repeating timer and schedules the
   * final swap; with Progress at k = L (whole text shown, timer still set)
   * this says the timer fires exactly L + 1 times. Empty text completes on
   * its first tick.
   */
  lemma Completion(content: string, classes: set<string>)
    ensures Ticks(Started(content, classes), |content| + 1) ==
              Reveal(content, |content|, content, classes + {TypingClass}, false, true)
  {
    var L := |content|;
    var s := Started(content, classes);
    Progress(content, classes, L);
    var p := Ticks(s, L);
    var q := Ticks(s, L + 1);
    assert q == Ticked(p);
    assert content[..L] == content;
  }

  /** Once the timer is cleared, further chances to tick change nothing. */
  lemma {:induction false} Quiescent(content: string, classes: set<string>, n: nat)
    requires n >= |content| + 1
    ensures Ticks(Started(content, classes), n) == Ticks(Started(content, classes), |content| + 1)
  {
    if n == |content| + 1 {
      Completion(content, classes);
    } else {
      Quiescent(content, classes, n - 1);
      Completion(content, classes);
    }
  }

  /** The lifecycle end to end: the finished element shows the whole text and is marked done. */
  lemma Lifecycle(content: string, classes: set<string>)
    ensures Inv(Ticks(Started(content, classes), |content| + 1))
    ensures Ticks(Started(content, classes), |content| + 1).finalizePending
    ensures Finalized(Ticks(Started(content, classes), |content| + 1)) ==
              Reveal(content, |content|, content,
                     classes + {TypingClass} + {DoneClass} - {TypingClass}, false, false)
  {
    Completion(content, classes);
  }

  /** "hi": "h" after one tick, "hi" after two, and the third tick stops the timer. */
  lemma TwoCharacterExample(classes: set<string>)
    ensures Ticks(Started("hi", classes), 1).text == "h"
    ensures Ticks(Started("hi", classes), 2).text == "hi"
    ensures Ticks(Started("hi", classes), 2).intervalActive
    ensures !Ticks(Started("hi", classes), 3).intervalActive
    ensures Ticks(Started("hi", classes), 3).finalizePending
  {
    Progress("hi", classes, 1);
    Progress("hi", classes, 2);
    Completion("hi", classes);
  }

  /** The biography element: its visible text and its class list. */
  class Bio {
    var textContent: string
    var classList: set<string>

    constructor (textContent: string, classList: set<string>)
      ensures this.textContent == textContent && this.classList == classList
    {
      this.textContent := textContent;
      this.classList := classList;
    }
  }

  /** One running reveal: the closure state of `addTypingAnimation` and its timers. */
  class TypingSession {
    const bio: Bio
    const originalText: string
    var charIndex: nat
    var intervalActive: bool
    var finalizePending: bool

    ghost function State(): Reveal
      reads this, bio
    {
      Reveal(originalText, charIndex, bio.textContent, bio.classList,
             intervalActive, finalizePending)
    }

    ghost predicate Valid()
      reads this, bio
    {
      Inv(State())
    }

    /** Capture the text, empty the element, mark it `typing` and set the repeating timer. */
    constructor (bio: Bio)
      modifies bio
      ensures this.bio == bio && Valid()
      ensures State() == Started(old(bio.textContent), old(bio.classList))
    {
      this.bio := bio;
      originalText := bio.textContent;
      new;
      bio.textContent := "";
      bio.classList := bio.classList + {TypingClass};
      charIndex := 0;
      intervalActive := true;
      finalizePending := false;
    }

    /** The repeating timer's callback. */
    method Tick()
      requires Valid() && intervalActive
      modifies this, bio
      ensures Valid()
      ensures State() == Ticked(old(State()))
    {
      if charIndex < |originalText| {
        bio.textContent := bio.textContent + [originalText[charIndex]];
        charIndex := charIndex + 1;
      } else {
        intervalActive := false;
        finalizePending := true;
      }
    }

    /** The one-shot timer's callback, 500 ms after the repeating timer was cleared. */
    method Finalize()
      requires Valid() && finalizePending
      modifies this, bio
      ensures Valid()
      ensures State() == Finalized(old(State()))
    {
      bio.classList := bio.classList + {DoneClass};
      bio.classList := bio.classList - {TypingClass};
      finalizePending := false;
    }
  }

  /** `addTypingAnimation`: no biography element means nothing happens. */
  method AddTypingAnimation(bio: Bio?) returns (session: TypingSession?)
    modifies bio
    ensures (session == null) == (bio == null)
    ensures session != null ==> fresh(session) && session.bio == bio && session.Valid()
    ensures session != null ==>
              session.State() == Started(old(bio.textContent), old(bio.classList))
  {
    if bio == null {
      return null;
    }
    session := new TypingSession(bio);
  }
}
