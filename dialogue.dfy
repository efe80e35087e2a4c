/**
 * The panda NPC's dialogue: an active / typing / index state machine over
 * the lines of its dialogue data, with letter-by-letter reveal, skip to the
 * full line, advance, and end.
 */
module Dialogue {

  datatype Option<T> = None | Some(value: T)

  /** The NPC's dialogue data asset. */
  datatype NpcDialogue = NpcDialogue(npcName: string, dialogueLines: seq<string>)

  /**
   * The controller's state: the three fields of the source, the shown text,
   * and whether a TypeLine coroutine is alive.
   */
  datatype DialogueView = DialogueView(isDialogueActive: bool, isTyping: bool, dialogueIndex: nat,
                                       text: string, typeLineRunning: bool)

  /** The lines of the dialogue data; a missing asset has none. */
  function LinesOf(data: Option<NpcDialogue>): seq<string> {
    if data.Some? then data.value.dialogueLines else []
  }

  /**
   * The state invariant: a running TypeLine belongs to an active, typing
   * dialogue on an existing line; while a dialogue with lines is active the
   * index is in range and the text is a prefix of the current line, the whole
   * line once typing is over; typing on such a dialogue means TypeLine runs
   * and has shown at least one letter.
   */
  ghost predicate Inv(lines: seq<string>, v: DialogueView) {
    && (v.typeLineRunning ==> v.isDialogueActive && v.isTyping && v.dialogueIndex < |lines|)
    && (v.isDialogueActive && |lines| > 0 ==>
          && v.dialogueIndex < |lines|
          && v.text <= lines[v.dialogueIndex]
          && (v.isTyping ==> v.typeLineRunning && 0 < |v.text|)
          && (!v.isTyping ==> v.text == lines[v.dialogueIndex]))
  }

  /**
   * TypeLine up to its first wait: typing starts with an empty text and the
   * first letter is shown. An empty line finishes at once; an index past the
   * lines makes the lookup fail, which kills the coroutine after typing was
   * set.
   */
  function TypeLineStarted(lines: seq<string>, v: DialogueView): (w: DialogueView)
    ensures w.isDialogueActive == v.isDialogueActive && w.dialogueIndex == v.dialogueIndex
    ensures w.typeLineRunning <==> v.dialogueIndex < |lines| && lines[v.dialogueIndex] != []
    ensures w.typeLineRunning ==> w.isTyping && w.text == lines[v.dialogueIndex][..1]
    ensures v.dialogueIndex < |lines| && lines[v.dialogueIndex] == [] ==> !w.isTyping && w.text == []
    ensures v.dialogueIndex >= |lines| ==> w.isTyping && w.text == []
  {
    var typing := v.(isTyping := true, text := "");
    if v.dialogueIndex >= |lines| then typing.(typeLineRunning := false)
    else if lines[v.dialogueIndex] == [] then typing.(isTyping := false, typeLineRunning := false)
    else typing.(text := lines[v.dialogueIndex][..1], typeLineRunning := true)
  }

  /**
   * TypeLine resumed after the wait that follows a letter: the next letter
   * is shown, or, after the last one, typing ends.
   */
  function TypeLineResumed(lines: seq<string>, v: DialogueView): (w: DialogueView)
    requires Inv(lines, v)
    ensures w.isDialogueActive == v.isDialogueActive && w.dialogueIndex == v.dialogueIndex
    ensures v.typeLineRunning && |v.text| < |lines[v.dialogueIndex]| ==>
              w.typeLineRunning && w.text == lines[v.dialogueIndex][..|v.text| + 1]
    ensures v.typeLineRunning && |v.text| == |lines[v.dialogueIndex]| ==>
              !w.typeLineRunning && !w.isTyping && w.text == lines[v.dialogueIndex]
    ensures !v.typeLineRunning ==> w == v
  {
    if !v.typeLineRunning then v
    else
      var line := lines[v.dialogueIndex];
      if |v.text| < |line| then
        assert v.text + [line[|v.text|]] == line[..|v.text| + 1];
        v.(text := v.text + [line[|v.text|]])
      else
        v.(isTyping := false, typeLineRunning := false)
  }

  /** EndDialogue: all coroutines stop, the dialogue is inactive and the text empty. */
  function DialogueEnded(v: DialogueView): (w: DialogueView)
    ensures !w.isDialogueActive && w.text == [] && !w.typeLineRunning
    ensures w.isTyping == v.isTyping && w.dialogueIndex == v.dialogueIndex
  {
    v.(isDialogueActive := false, text := "", typeLineRunning := false)
  }

  /**
   * NextLine: while typing, the coroutine stops and the whole current line
   * is shown; otherwise the index moves on, typing the next line if there is
   * one and ending the dialogue if not.
   */
  function NextLineTaken(lines: seq<string>, v: DialogueView): (w: DialogueView)
    ensures v.isTyping && v.dialogueIndex < |lines| ==>
              w == v.(text := lines[v.dialogueIndex], isTyping := false, typeLineRunning := false)
    ensures !v.isTyping ==> w.dialogueIndex == v.dialogueIndex + 1
    ensures !v.isTyping && v.dialogueIndex + 1 < |lines| ==> w == TypeLineStarted(lines, v.(dialogueIndex := v.dialogueIndex + 1))
    ensures !v.isTyping && v.dialogueIndex + 1 >= |lines| ==> !w.isDialogueActive && w.text == []
  {
    if v.isTyping then
      var stopped := v.(typeLineRunning := false);
      if v.dialogueIndex < |lines| then stopped.(text := lines[v.dialogueIndex], isTyping := false)
      else stopped
    else
      var advanced := v.(dialogueIndex := v.dialogueIndex + 1);
      if advanced.dialogueIndex < |lines| then TypeLineStarted(lines, advanced)
      else DialogueEnded(advanced)
  }

  /** StartDialogue: nothing without the UI references; otherwise line 0 starts typing. */
  function DialogueStarted(uiAssigned: bool, lines: seq<string>, v: DialogueView): (w: DialogueView)
    ensures !uiAssigned ==> w == v
    ensures uiAssigned ==> w == TypeLineStarted(lines, v.(isDialogueActive := true, dialogueIndex := 0))
  {
    if !uiAssigned then v
    else TypeLineStarted(lines, v.(isDialogueActive := true, dialogueIndex := 0))
  }

  /** Interact: nothing without dialogue data; the next line while active; a new dialogue otherwise. */
  function Interacted(data: Option<NpcDialogue>, uiAssigned: bool, v: DialogueView): (w: DialogueView)
    ensures data.None? ==> w == v
    ensures data.Some? && v.isDialogueActive ==> w == NextLineTaken(data.value.dialogueLines, v)
    ensures data.Some? && !v.isDialogueActive ==> w == DialogueStarted(uiAssigned, data.value.dialogueLines, v)
  {
    match data
    case None => v
    case Some(d) =>
      if v.isDialogueActive then NextLineTaken(d.dialogueLines, v)
      else DialogueStarted(uiAssigned, d.dialogueLines, v)
  }

  /**
   * A successful start on a dialogue with lines is active at index 0 and
   * typing line 0 from its start (or showing it whole, if it is empty).
   */
  lemma StartShowsFirstLine(lines: seq<string>, v: DialogueView)
    requires |lines| > 0 && !v.isDialogueActive
    ensures var w := DialogueStarted(true, lines, v);
            && w.isDialogueActive && w.dialogueIndex == 0
            && (lines[0] != [] ==> w.isTyping && w.typeLineRunning && w.text == lines[0][..1])
            && (lines[0] == [] ==> !w.isTyping && w.text == [])
  {
  }

  /** Every step keeps the invariant. */
  lemma {:induction false} StepsKeepInv(data: Option<NpcDialogue>, uiAssigned: bool, v: DialogueView)
    requires Inv(LinesOf(data), v)
    ensures Inv(LinesOf(data), Interacted(data, uiAssigned, v))
    ensures Inv(LinesOf(data), TypeLineResumed(LinesOf(data), v))
    ensures Inv(LinesOf(data), DialogueEnded(v))
  {
    var lines := LinesOf(data);
    if data.Some? && lines != [] {
      var w := Interacted(data, uiAssigned, v);
      if !v.isDialogueActive && uiAssigned {
        if lines[0] != [] {
          assert lines[0][..1] <= lines[0];
        }
      } else if v.isDialogueActive && !v.isTyping && v.dialogueIndex + 1 < |lines| {
        var i := v.dialogueIndex + 1;
        if lines[i] != [] {
          assert lines[i][..1] <= lines[i];
        }
      }
    }
    if v.typeLineRunning {
      var line := lines[v.dialogueIndex];
      if |v.text| < |line| {
        assert line[..|v.text| + 1] <= line;
      }
    }
  }

  /** TypeLine resumed n times. */
  function ResumedTimes(lines: seq<string>, v: DialogueView, n: nat): (w: DialogueView)
    requires Inv(lines, v)
    ensures Inv(lines, w)
    ensures w.isDialogueActive == v.isDialogueActive && w.dialogueIndex == v.dialogueIndex
    decreases n
  {
    if n == 0 then v
    else
      StepsKeepInv(Some(NpcDialogue("", lines)), false, v);
      ResumedTimes(lines, TypeLineResumed(lines, v), n - 1)
  }

  /**
   * Left to itself, TypeLine reveals the line letter by letter: after the
   * remaining letters and one final wait, the text is the whole line and
   * typing is over.
   */
  lemma {:induction false} TypingRevealsLine(lines: seq<string>, v: DialogueView)
    requires Inv(lines, v) && v.typeLineRunning
    ensures var w := ResumedTimes(lines, v, |lines[v.dialogueIndex]| - |v.text| + 1);
            w.text == lines[v.dialogueIndex] && !w.isTyping && !w.typeLineRunning
    decreases |lines[v.dialogueIndex]| - |v.text|
  {
    var line := lines[v.dialogueIndex];
    var n := |line| - |v.text| + 1;
    var next := TypeLineResumed(lines, v);
    assert ResumedTimes(lines, v, n) == ResumedTimes(lines, next, n - 1);
    if |v.text| < |line| {
      TypingRevealsLine(lines, next);
    }
  }

  /** Interact pressed n times, with no TypeLine resumes in between; every press keeps the invariant. */
  function InteractedTimes(data: Option<NpcDialogue>, uiAssigned: bool, v: DialogueView, n: nat): (w: DialogueView)
    ensures Inv(LinesOf(data), v) ==> Inv(LinesOf(data), w)
    decreases n
  {
    if n == 0 then v
    else
      var next := Interacted(data, uiAssigned, v);
      assert Inv(LinesOf(data), v) ==> Inv(LinesOf(data), next) by {
        if Inv(LinesOf(data), v) {
          StepsKeepInv(data, uiAssigned, v);
        }
      }
      InteractedTimes(data, uiAssigned, next, n - 1)
  }

  /**
   * The gate behind canInteract: from an inactive dialogue, Interact makes it
   * active exactly when there is dialogue data and the UI is assigned; from
   * an active one, Interact makes it inactive exactly when NextLine ends it
   * (not typing, and no line after the current one). A TypeLine resume never
   * changes it.
   */
  lemma InteractionGate(data: Option<NpcDialogue>, uiAssigned: bool, v: DialogueView)
    ensures !v.isDialogueActive ==>
              (Interacted(data, uiAssigned, v).isDialogueActive <==> data.Some? && uiAssigned)
    ensures v.isDialogueActive ==>
              (!Interacted(data, uiAssigned, v).isDialogueActive
               <==> data.Some? && !v.isTyping && v.dialogueIndex + 1 >= |data.value.dialogueLines|)
    ensures Inv(LinesOf(data), v) ==>
              TypeLineResumed(LinesOf(data), v).isDialogueActive == v.isDialogueActive
  {
  }

  ghost predicate NoEmptyLine(lines: seq<string>) {
    forall k :: 0 <= k < |lines| ==> lines[k] != []
  }

  /**
   * Pressing through a dialogue whose lines all have text: from typing line
   * i, two presses per remaining line (skip, then advance) end the dialogue
   * with the index past the last line.
   */
  lemma {:induction false} PressesFinishDialogue(data: NpcDialogue, v: DialogueView)
    requires NoEmptyLine(data.dialogueLines)
    requires v.isDialogueActive && v.isTyping && v.dialogueIndex < |data.dialogueLines|
    ensures var w := InteractedTimes(Some(data), true, v, 2 * (|data.dialogueLines| - v.dialogueIndex));
            !w.isDialogueActive && w.text == [] && w.dialogueIndex == |data.dialogueLines|
    decreases |data.dialogueLines| - v.dialogueIndex
  {
    var lines := data.dialogueLines;
    var m := 2 * (|lines| - v.dialogueIndex);
    var v1 := Interacted(Some(data), true, v);
    var v2 := Interacted(Some(data), true, v1);
    assert !v1.isTyping && v1.isDialogueActive && v1.dialogueIndex == v.dialogueIndex;
    assert InteractedTimes(Some(data), true, v, m) == InteractedTimes(Some(data), true, v2, m - 2);
    if v.dialogueIndex + 1 < |lines| {
      assert lines[v.dialogueIndex + 1] != [];
      PressesFinishDialogue(data, v2);
    }
  }

  /**
   * A dialogue whose lines all have text, started from an inactive
   * controller, ends after 2 * |lines| + 1 presses of Interact, after which
   * the NPC can be interacted with again.
   */
  lemma DialogueRunsToEnd(data: NpcDialogue, v: DialogueView)
    requires NoEmptyLine(data.dialogueLines) && |data.dialogueLines| > 0
    requires !v.isDialogueActive
    ensures var w := InteractedTimes(Some(data), true, v, 2 * |data.dialogueLines| + 1);
            !w.isDialogueActive && w.text == [] && w.dialogueIndex == |data.dialogueLines|
  {
    var v1 := Interacted(Some(data), true, v);
    assert data.dialogueLines[0] != [];
    PressesFinishDialogue(data, v1);
  }

  /**
   * A dialogue with no lines never ends: the first press leaves it active
   * and typing (TypeLine fails on the missing line 0), and every later press
   * fails the same lookup in NextLine and changes nothing.
   */
  lemma {:induction false} EmptyDialogueSticks(name: string, v: DialogueView, n: nat)
    requires v.isDialogueActive && v.isTyping && !v.typeLineRunning
    ensures InteractedTimes(Some(NpcDialogue(name, [])), true, v, n) == v
    decreases n
  {
    if n > 0 {
      assert Interacted(Some(NpcDialogue(name, [])), true, v) == v;
      EmptyDialogueSticks(name, v, n - 1);
    }
  }

  /** Starting a dialogue with no lines leaves it active and typing for good. */
  lemma EmptyDialogueNeverEnds(name: string, v: DialogueView, n: nat)
    requires !v.isDialogueActive
    ensures var w := InteractedTimes(Some(NpcDialogue(name, [])), true, v, n + 1);
            w.isDialogueActive && w.isTyping
  {
    var v1 := Interacted(Some(NpcDialogue(name, [])), true, v);
    EmptyDialogueSticks(name, v1, n);
  }

  class PandaExpressController {
    const dialogueData: Option<NpcDialogue>
    /** The panel, the two texts and the portrait are all assigned. */
    const uiAssigned: bool

    var dialogueIndex: nat
    var isTyping: bool
    var isDialogueActive: bool
    var text: string
    var typeLineRunning: bool

    function Snapshot(): DialogueView
      reads this
    {
      DialogueView(isDialogueActive, isTyping, dialogueIndex, text, typeLineRunning)
    }

    function Lines(): seq<string> {
      LinesOf(dialogueData)
    }

    ghost predicate Valid()
      reads this
    {
      Inv(Lines(), Snapshot())
    }

    constructor (dialogueData: Option<NpcDialogue>, uiAssigned: bool)
      ensures Valid()
      ensures this.dialogueData == dialogueData && this.uiAssigned == uiAssigned
      ensures Snapshot() == DialogueView(false, false, 0, "", false)
    {
      this.dialogueData := dialogueData;
      this.uiAssigned := uiAssigned;
      dialogueIndex := 0;
      isTyping, isDialogueActive := false, false;
      text := "";
      typeLineRunning := false;
    }

    /**
     * The dialogue can be started when none is active; then no TypeLine
     * coroutine is left running.
     */
    function CanInteract(): (r: bool)
      reads this
      ensures Valid() && r ==> !typeLineRunning
    {
      !isDialogueActive
    }

    method Interact()
      requires Valid()
      modifies this
      ensures Valid()
      ensures Snapshot() == Interacted(dialogueData, uiAssigned, old(Snapshot()))
    {
      StepsKeepInv(dialogueData, uiAssigned, Snapshot());
      if dialogueData.None? {
        return;
      }
      if isDialogueActive {
        NextLine();
      } else {
        StartDialogue();
      }
    }

    method StartDialogue()
      requires dialogueData.Some?
      modifies this
      ensures Snapshot() == DialogueStarted(uiAssigned, Lines(), old(Snapshot()))
    {
      if !uiAssigned {
        return;
      }
      isDialogueActive := true;
      dialogueIndex := 0;
      TypeLine();
    }

    method NextLine()
      requires dialogueData.Some?
      modifies this
      ensures Snapshot() == NextLineTaken(Lines(), old(Snapshot()))
    {
      var lines := dialogueData.value.dialogueLines;
      if isTyping {
        typeLineRunning := false;
        if dialogueIndex < |lines| {
          text := lines[dialogueIndex];
          isTyping := false;
        }
      } else {
        dialogueIndex := dialogueIndex + 1;
        if dialogueIndex < |lines| {
          TypeLine();
        } else {
          EndDialogue();
        }
      }
    }

    /** Starts the TypeLine coroutine and runs it up to its first wait. */
    method TypeLine()
      modifies this`isTyping, this`text, this`typeLineRunning
      ensures Snapshot() == TypeLineStarted(Lines(), old(Snapshot()))
    {
      var lines := Lines();
      isTyping := true;
      text := "";
      if dialogueIndex >= |lines| {
        typeLineRunning := false;
        return;
      }
      var line := lines[dialogueIndex];
      if line == [] {
        isTyping := false;
        typeLineRunning := false;
      } else {
        text := text + [line[0]];
        typeLineRunning := true;
      }
    }

    /** The TypeLine coroutine resumes after a letter's wait. */
    method TypeLineResume()
      requires Valid()
      modifies this`isTyping, this`text, this`typeLineRunning
      ensures Valid()
      ensures Snapshot() == TypeLineResumed(Lines(), old(Snapshot()))
    {
      StepsKeepInv(dialogueData, false, Snapshot());
      if !typeLineRunning {
        return;
      }
      var line := Lines()[dialogueIndex];
      if |text| < |line| {
        text := text + [line[|text|]];
      } else {
        isTyping := false;
        typeLineRunning := false;
      }
    }

    method EndDialogue()
      modifies this`isDialogueActive, this`text, this`typeLineRunning
      ensures Snapshot() == DialogueEnded(old(Snapshot()))
    {
      typeLineRunning := false;
      isDialogueActive := false;
      text := "";
    }
  }
}
