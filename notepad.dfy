/** The local notepad (src/screens/notepad/NotepadScreen.tsx): the text, a
    bounded undo history with a cursor, and the word count. Typing is
    modelled as one call that sets the text, saves it and records it in the
    history (the two debounce timers are not modelled). */
module Notepad {
  import opened Wrappers
  import opened Text
  import opened Items
  import opened KeyValueStore

  /** The history keeps at most this many entries. */
  const MaxHistory: nat := 50

  // ---------------------------------------------------------------------
  // The history as values

  /** `prev.slice(0, historyIndex + 1)`: the entries up to the cursor. */
  function Truncated(h: seq<string>, index: nat): (r: seq<string>)
    ensures r <= h
    ensures index < |h| ==> |r| == index + 1
  {
    if index + 1 <= |h| then h[..index + 1] else h
  }

  /** The new text equals the last entry kept. */
  predicate RepeatsLast(h: seq<string>, index: nat, text: string) {
    var cur := Truncated(h, index);
    cur != [] && cur[|cur| - 1] == text
  }

  /** The history after recording `text`: unchanged when the text repeats
      the last kept entry; otherwise the redo branch is cut, the text is
      appended and the oldest entry goes when there are too many. */
  function AddedEntries(h: seq<string>, index: nat, text: string): seq<string> {
    if RepeatsLast(h, index, text) then h
    else
      var next := Truncated(h, index) + [text];
      if |next| > MaxHistory then next[1..] else next
  }

  /** The cursor update as written: one step on, or the last slot when the
      history is full, whether or not an entry was appended. */
  function CursorAsWritten(index: nat): nat {
    if index + 2 > MaxHistory then MaxHistory - 1 else index + 1
  }

  /** The cursor update that keeps the cursor on an entry: unchanged when
      nothing was appended, on the new last entry otherwise. */
  function Cursor(h: seq<string>, index: nat, text: string): nat {
    if RepeatsLast(h, index, text) then index else |AddedEntries(h, index, text)| - 1
  }

  /** A history the screen can be in: not empty, not over the cap, and the
      cursor on one of its entries. */
  predicate ValidHistory(h: seq<string>, index: nat) {
    1 <= |h| <= MaxHistory && index < |h|
  }

  /** Recording a new text cuts the redo branch: the new history is a
      suffix of the entries up to the cursor followed by the text, at most
      `MaxHistory` long, with the cursor on the text. A repeated text
      changes nothing. */
  lemma AddedEntriesSpec(h: seq<string>, index: nat, text: string)
    requires ValidHistory(h, index)
    ensures ValidHistory(AddedEntries(h, index, text), Cursor(h, index, text))
    ensures RepeatsLast(h, index, text) ==> AddedEntries(h, index, text) == h && Cursor(h, index, text) == index
    ensures !RepeatsLast(h, index, text) ==>
      var r := AddedEntries(h, index, text);
      var c := Cursor(h, index, text);
      && c == |r| - 1 && r[c] == text
      && |r| == (if index + 2 > MaxHistory then MaxHistory else index + 2)
      && r[..c] == h[index + 1 - c..index + 1]
  {
    if !RepeatsLast(h, index, text) {
      var next := Truncated(h, index) + [text];
      assert next[..index + 1] == h[..index + 1];
    }
  }

  /** Undo right after recording a new text goes back to the entry the
      cursor was on before, also when the oldest entry was dropped. */
  lemma UndoAfterAdd(h: seq<string>, index: nat, text: string)
    requires ValidHistory(h, index) && !RepeatsLast(h, index, text)
    ensures Cursor(h, index, text) > 0
    ensures AddedEntries(h, index, text)[Cursor(h, index, text) - 1] == h[index]
  {
    AddedEntriesSpec(h, index, text);
    var c := Cursor(h, index, text);
    var r := AddedEntries(h, index, text);
    assert r[..c][c - 1] == h[index + 1 - c..index + 1][c - 1];
  }

  /** Whenever an entry is appended the written cursor update is the right
      one; they differ only on a repeated text. */
  lemma CursorAgreesOnAppend(h: seq<string>, index: nat, text: string)
    requires ValidHistory(h, index) && !RepeatsLast(h, index, text)
    ensures Cursor(h, index, text) == CursorAsWritten(index)
  {
    AddedEntriesSpec(h, index, text);
  }

  /** As written, a repeated text still moves the cursor on: from a fresh
      history, recording "a" three times leaves the cursor at 3 over two
      entries, so the next undo reads entry 2, which does not exist. */
  lemma CursorDriftsAsWritten()
    ensures var h1 := AddedEntries([""], 0, "a");
      var h2 := AddedEntries(h1, CursorAsWritten(0), "a");
      var h3 := AddedEntries(h2, CursorAsWritten(CursorAsWritten(0)), "a");
      && h3 == ["", "a"]
      && CursorAsWritten(CursorAsWritten(CursorAsWritten(0))) == 3
      && CursorAsWritten(CursorAsWritten(CursorAsWritten(0))) - 1 >= |h3|
  {
    var h1 := AddedEntries([""], 0, "a");
    assert h1 == ["", "a"];
    assert Truncated(h1, 1) == h1;
    assert Truncated(h1, 2) == h1;
  }

  // ---------------------------------------------------------------------
  // Word count

  /** Drops the leading run of white space. */
  function DropSpaces(s: string): (r: string)
    ensures |r| <= |s| && (s != [] && IsSpace(s[0]) ==> |r| < |s|)
    ensures r != [] ==> !IsSpace(r[0])
  {
    if s != [] && IsSpace(s[0]) then DropSpaces(s[1..]) else s
  }

  /** `s.split(/\s+/)`: the pieces between maximal runs of white space,
      with an empty piece before a leading run and after a trailing one. */
  function SplitOnSpace(s: string): (r: seq<string>)
    ensures |r| >= 1
    ensures r[0] != [] <==> s != [] && !IsSpace(s[0])
    decreases |s|
  {
    if s == [] then [[]]
    else if IsSpace(s[0]) then [[]] + SplitOnSpace(DropSpaces(s))
    else
      var rest := SplitOnSpace(s[1..]);
      [[s[0]] + rest[0]] + rest[1..]
  }

  /** The filter of the word count: a non-empty piece. */
  predicate IsWord(w: string) {
    |w| > 0
  }

  /** `content.trim().split(/\s+/).filter(w => w.length > 0).length`. */
  function WordCount(content: string): nat {
    Count(SplitOnSpace(Trim(content)), IsWord)
  }

  /** The number of places where a word starts: a non-space that is first
      or follows white space (`afterSpace` says what came before `s`). */
  function WordStarts(s: string, afterSpace: bool): nat
    decreases |s|
  {
    if s == [] then 0
    else (if afterSpace && !IsSpace(s[0]) then 1 else 0) + WordStarts(s[1..], IsSpace(s[0]))
  }

  lemma {:induction false} WordStartsSkipSpaces(s: string)
    ensures WordStarts(s, true) == WordStarts(DropSpaces(s), true)
    decreases |s|
  {
    if s != [] && IsSpace(s[0]) {
      WordStartsSkipSpaces(s[1..]);
    }
  }

  lemma CountCons(w: string, rest: seq<string>)
    ensures Count([w] + rest, IsWord) == (if IsWord(w) then 1 else 0) + Count(rest, IsWord)
  {
    assert ([w] + rest)[1..] == rest;
  }

  lemma {:induction false} SplitCountsWordStarts(s: string)
    ensures Count(SplitOnSpace(s), IsWord) == WordStarts(s, true)
    decreases |s|
  {
    if s != [] {
      if IsSpace(s[0]) {
        SplitCountsWordStarts(DropSpaces(s));
        WordStartsSkipSpaces(s);
        CountCons([], SplitOnSpace(DropSpaces(s)));
        assert SplitOnSpace(s) == [[]] + SplitOnSpace(DropSpaces(s));
      } else {
        var rest := SplitOnSpace(s[1..]);
        SplitCountsWordStarts(s[1..]);
        CountCons([s[0]] + rest[0], rest[1..]);
        CountCons(rest[0], rest[1..]);
        assert rest == [rest[0]] + rest[1..];
        assert SplitOnSpace(s) == [[s[0]] + rest[0]] + rest[1..];
        assert WordStarts(s, true) == 1 + WordStarts(s[1..], false);
        assert IsWord(rest[0]) == (s[1..] != [] && !IsSpace(s[1..][0]));
      }
    } else {
      CountCons([], []);
      assert SplitOnSpace(s) == [[]] + [];
    }
  }

  lemma {:induction false} WordStartsSpacesAfter(x: string, sp: string, afterSpace: bool)
    requires forall k :: 0 <= k < |sp| ==> IsSpace(sp[k])
    ensures WordStarts(x + sp, afterSpace) == WordStarts(x, afterSpace)
    decreases |x| + |sp|
  {
    if x == [] {
      if sp != [] {
        assert [] + sp == sp;
        WordStartsSpacesAfter([], sp[1..], IsSpace(sp[0]));
        assert [] + sp[1..] == sp[1..];
      }
    } else {
      assert (x + sp)[1..] == x[1..] + sp;
      WordStartsSpacesAfter(x[1..], sp, IsSpace(x[0]));
    }
  }

  lemma {:induction false} WordStartsSpacesBefore(sp: string, x: string)
    requires forall k :: 0 <= k < |sp| ==> IsSpace(sp[k])
    ensures WordStarts(sp + x, true) == WordStarts(x, true)
    decreases |sp|
  {
    if sp != [] {
      var s := sp + x;
      assert s[0] == sp[0] && IsSpace(s[0]);
      assert s[1..] == sp[1..] + x;
      assert WordStarts(s, true) == WordStarts(s[1..], true);
      WordStartsSpacesBefore(sp[1..], x);
    } else {
      assert sp + x == x;
    }
  }

  /** White space around a text adds no word. */
  lemma WordStartsAmidSpace(content: string, i: int, t: string)
    requires InfixAmidSpace(content, i, t)
    ensures WordStarts(content, true) == WordStarts(t, true)
  {
    var pre, post := content[..i], content[i + |t|..];
    assert forall k :: 0 <= k < |pre| ==> IsSpace(pre[k]);
    assert forall k :: 0 <= k < |post| ==> IsSpace(post[k]) by {
      forall k | 0 <= k < |post| ensures IsSpace(post[k]) {
        assert post[k] == content[i + |t| + k];
      }
    }
    assert content == pre + (t + post);
    WordStartsSpacesAfter(t, post, true);
    WordStartsSpacesBefore(pre, t + post);
  }

  /** The word count is the number of maximal runs of non-space
      characters in the text. */
  lemma WordCountIsRuns(content: string)
    ensures WordCount(content) == WordStarts(content, true)
  {
    var t := Trim(content);
    SplitCountsWordStarts(t);
    TrimSpec(content);
    var i :| InfixAmidSpace(content, i, t);
    WordStartsAmidSpace(content, i, t);
  }

  lemma WordCountExamples()
    ensures WordStarts(" a b", true) == 2
    ensures WordStarts("", true) == 0
  {
    assert " a b"[1..] == "a b";
    assert "a b"[1..] == " b";
    assert " b"[1..] == "b";
  }

  // ---------------------------------------------------------------------
  // The screen

  /** The text saved on the device, or "" when there is none. */
  function StoredNote(m: map<string, Value>): string {
    if NotepadContentKey in m && m[NotepadContentKey].Text? then m[NotepadContentKey].text else []
  }

  class NotepadScreen {
    var content: string
    var history: seq<string>
    var index: nat
    const store: StorageFacade

    /** The cursor is on an entry of a valid history, and the text shown is
        that entry. */
    ghost predicate Valid()
      reads this
    {
      ValidHistory(history, index) && content == history[index]
    }

    constructor (store: StorageFacade)
      ensures content == [] && history == [[]] && index == 0 && this.store == store
      ensures Valid()
    {
      content := [];
      history := [[]];
      index := 0;
      this.store := store;
    }

    function CanUndo(): bool
      reads this
    {
      index > 0
    }

    function CanRedo(): bool
      reads this
    {
      index + 1 < |history|
    }

    /** The initial load: a saved non-empty text becomes the text and the
        whole history. */
    method Load(engineOk: bool)
      requires Valid()
      modifies this`content, this`history, this`index, store, store.instance
      ensures Valid()
      ensures store.SameInstance() && store.Contents() == old(store.Contents())
      ensures var saved := if store.IsOpen() then StoredNote(store.Contents()) else [];
        if saved != []
        then content == saved && history == [saved] && index == 0
        else content == old(content) && history == old(history) && index == old(index)
    {
      var v := store.Get(NotepadContentKey, Value.Text([]), engineOk);
      var saved := if v.Text? then v.text else [];
      if saved != [] {
        content := saved;
        history := [saved];
        index := 0;
      }
    }

    /** `addToHistory` as written: the cursor moves on even when nothing
        was appended. */
    method AddToHistoryAsWritten(text: string)
      modifies this`history, this`index
      ensures history == AddedEntries(old(history), old(index), text)
      ensures index == CursorAsWritten(old(index))
    {
      var current := Truncated(history, index);
      if !(current != [] && current[|current| - 1] == text) {
        var next := current + [text];
        if |next| > MaxHistory {
          next := next[1..];
        }
        history := next;
      }
      index := if index + 2 > MaxHistory then MaxHistory - 1 else index + 1;
    }

    /** `addToHistory` with the cursor moved only when an entry was
        appended. */
    method AddToHistory(text: string)
      requires ValidHistory(history, index)
      modifies this`history, this`index
      ensures ValidHistory(history, index)
      ensures history == AddedEntries(old(history), old(index), text)
      ensures index == Cursor(old(history), old(index), text)
      ensures history[index] == text
    {
      AddedEntriesSpec(history, index, text);
      var current := Truncated(history, index);
      if !(current != [] && current[|current| - 1] == text) {
        var next := current + [text];
        if |next| > MaxHistory {
          next := next[1..];
        }
        history := next;
        index := |next| - 1;
      }
    }

    /** Typing: the text changes, is saved, and is recorded. The recording
        uses the corrected `AddToHistory`, so a repeated text leaves the
        cursor where it is; `AddToHistoryAsWritten` is the source's own. */
    method Edit(text: string, engineOk: bool)
      requires Valid()
      modifies this`content, this`history, this`index, store, store.instance
      ensures Valid()
      ensures content == text
      ensures history == AddedEntries(old(history), old(index), text)
      ensures index == Cursor(old(history), old(index), text)
      ensures store.SameInstance()
      ensures store.Contents() == if store.IsOpen() then old(store.Contents())[NotepadContentKey := Value.Text(text)] else old(store.Contents())
    {
      content := text;
      store.Set(NotepadContentKey, Value.Text(text), engineOk);
      AddToHistory(text);
    }

    method Undo(engineOk: bool)
      requires Valid()
      modifies this`content, this`index, store, store.instance
      ensures Valid() && history == old(history)
      ensures old(CanUndo()) ==> index == old(index) - 1 && store.SameInstance()
      ensures old(CanUndo()) ==> store.Contents() == (if store.IsOpen() then old(store.Contents())[NotepadContentKey := Value.Text(content)] else old(store.Contents()))
      ensures !old(CanUndo()) ==> index == old(index) && content == old(content) && store.Contents() == old(store.Contents())
    {
      if index > 0 {
        index := index - 1;
        content := history[index];
        store.Set(NotepadContentKey, Value.Text(content), engineOk);
      }
    }

    method Redo(engineOk: bool)
      requires Valid()
      modifies this`content, this`index, store, store.instance
      ensures Valid() && history == old(history)
      ensures old(CanRedo()) ==> index == old(index) + 1 && store.SameInstance()
      ensures old(CanRedo()) ==> store.Contents() == (if store.IsOpen() then old(store.Contents())[NotepadContentKey := Value.Text(content)] else old(store.Contents()))
      ensures !old(CanRedo()) ==> index == old(index) && content == old(content) && store.Contents() == old(store.Contents())
    {
      if index + 1 < |history| {
        index := index + 1;
        content := history[index];
        store.Set(NotepadContentKey, Value.Text(content), engineOk);
      }
    }

    /** `handleClear`, once the confirmation was accepted; an empty text is
        left alone without asking. */
    method Clear(confirmed: bool, engineOk: bool)
      requires Valid()
      modifies this`content, this`history, this`index, store, store.instance
      ensures Valid()
      ensures old(content) != [] && confirmed ==>
        && content == [] && history == [[]] && index == 0 && store.SameInstance()
        && store.Contents() == if store.IsOpen() then old(store.Contents())[NotepadContentKey := Value.Text([])] else old(store.Contents())
      ensures old(content) == [] || !confirmed ==>
        content == old(content) && history == old(history) && index == old(index) && store.Contents() == old(store.Contents())
    {
      if content == [] || !confirmed {
        return;
      }
      content := [];
      history := [[]];
      index := 0;
      store.Set(NotepadContentKey, Value.Text([]), engineOk);
    }
  }
}
