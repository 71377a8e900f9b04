/** The search box of the note-taking workshop: while the drop-down is open it
    lists, in order, the notes whose title contains the typed text, marks the
    highlighted one, and turns a choice into the note's address. */
module Search {
  import opened Wrappers
  import opened Notes
  import opened Sequences

  /** The parts of the drop-down's render state that the list reads;
      `highlightedIndex` is `None` for `null`. */
  datatype DownshiftState = DownshiftState(isOpen: bool, inputValue: string, highlightedIndex: Option<int>)

  /** One `li` of the list: the note, its position among the listed notes
      and its class name. */
  datatype MenuEntry = MenuEntry(note: Note, index: nat, className: string)

  /** `s.includes(sub)`. */
  predicate Includes(s: string, sub: string)
    decreases |s|
  {
    if |sub| > |s| then false
    else if s[..|sub|] == sub then true
    else |s| > 0 && Includes(s[1..], sub)
  }

  /** `sub` occurs in `s` starting at position `i`. */
  ghost predicate OccursAt(s: string, sub: string, i: int)
  {
    0 <= i <= |s| - |sub| && s[i..i + |sub|] == sub
  }

  /** `includes` finds a substring exactly when it occurs somewhere. */
  lemma {:induction false} IncludesIffOccurs(s: string, sub: string)
    ensures Includes(s, sub) <==> exists i :: OccursAt(s, sub, i)
    decreases |s|
  {
    if |sub| <= |s| && s[..|sub|] != sub && |s| > 0 {
      IncludesIffOccurs(s[1..], sub);
      if Includes(s[1..], sub) {
        var k :| OccursAt(s[1..], sub, k);
        assert s[k + 1..k + 1 + |sub|] == s[1..][k..k + |sub|];
        assert OccursAt(s, sub, k + 1);
      }
      if exists i :: OccursAt(s, sub, i) {
        var i :| OccursAt(s, sub, i);
        assert i != 0;
        assert s[1..][i - 1..i - 1 + |sub|] == s[i..i + |sub|];
        assert OccursAt(s[1..], sub, i - 1);
      }
    } else if |sub| <= |s| && s[..|sub|] == sub {
      assert OccursAt(s, sub, 0);
    }
  }

  /** The filter's predicate: an empty input lets every note through. */
  predicate Matches(note: Note, input: string)
  {
    input == "" || Includes(note.title, input)
  }

  /** The empty-input test is redundant: the empty string occurs in every
      title, so a note is kept exactly when the input occurs in its title. */
  lemma MatchesIffOccurs(note: Note, input: string)
    ensures Matches(note, input) <==> exists i :: OccursAt(note.title, input, i)
  {
    IncludesIffOccurs(note.title, input);
    if input == "" {
      assert OccursAt(note.title, input, 0);
    }
  }

  /** `notes.filter(...)`. */
  function Filtered(notes: seq<Note>, input: string): seq<Note>
    decreases |notes|
  {
    if notes == [] then []
    else if Matches(notes[0], input) then [notes[0]] + Filtered(notes[1..], input)
    else Filtered(notes[1..], input)
  }

  /** An empty input lists every note. */
  lemma {:induction false} EmptyInputListsAll(notes: seq<Note>)
    ensures Filtered(notes, "") == notes
    decreases |notes|
  {
    if notes != [] {
      EmptyInputListsAll(notes[1..]);
    }
  }

  /** A note is listed exactly when it is one of `notes` and its title
      contains the input: no false positives and no false negatives. */
  lemma {:induction false} FilteredExactly(notes: seq<Note>, input: string, n: Note)
    ensures n in Filtered(notes, input) <==> n in notes && Matches(n, input)
    decreases |notes|
  {
    if notes != [] {
      FilteredExactly(notes[1..], input, n);
      assert n in notes <==> n == notes[0] || n in notes[1..];
    }
  }

  /** Every matching note is listed as many times as it occurs in `notes`,
      and a note that does not match is never listed. */
  lemma {:induction false} FilteredCounts(notes: seq<Note>, input: string, n: Note)
    ensures multiset(Filtered(notes, input))[n] == if Matches(n, input) then multiset(notes)[n] else 0
    decreases |notes|
  {
    if notes != [] {
      FilteredCounts(notes[1..], input, n);
      assert notes == [notes[0]] + notes[1..];
      assert multiset(notes) == multiset([notes[0]]) + multiset(notes[1..]);
    }
  }

  /** Listed notes keep their relative order from `notes`. */
  lemma {:induction false} FilteredKeepsOrder(notes: seq<Note>, input: string)
    ensures IsSubsequence(Filtered(notes, input), notes)
    decreases |notes|
  {
    if notes != [] {
      FilteredKeepsOrder(notes[1..], input);
      var rest := Filtered(notes[1..], input);
      if Matches(notes[0], input) {
        assert ([notes[0]] + rest)[1..] == rest;
      }
    }
  }

  /** The list the drop-down would build if each entry's key were defined
      (as written, the key expression throws for any listed note): nothing
      while it is closed; otherwise the
      filtered notes in order, each carrying its index, and only the one at
      the highlighted index marked `selected`. */
  function Listing(notes: seq<Note>, ds: DownshiftState): (r: seq<MenuEntry>)
    ensures !ds.isOpen ==> r == []
    ensures ds.isOpen ==> |r| == |Filtered(notes, ds.inputValue)|
    ensures forall i :: 0 <= i < |r| ==>
      && r[i].note == Filtered(notes, ds.inputValue)[i]
      && r[i].index == i
      && (r[i].className == "selected" <==> ds.highlightedIndex == Some(i))
    ensures forall i, j ::
      (0 <= i < |r| && 0 <= j < |r| && r[i].className == "selected" && r[j].className == "selected") ==> i == j
  {
    if !ds.isOpen then []
    else
      var listed := Filtered(notes, ds.inputValue);
      seq(|listed|, i requires 0 <= i < |listed| =>
        MenuEntry(listed[i], i, if ds.highlightedIndex == Some(i) then "selected" else ""))
  }

  /** `itemToString`: the title of a chosen note, '' when there is none. */
  function ItemToString(item: Option<Note>): (s: string)
    ensures item.Some? ==> s == item.value.title
    ensures item.None? ==> s == ""
  {
    match item
    case Some(note) => note.title
    case None => ""
  }

  const NotePath := "/note?id="

  /** The address `onChange` navigates to for a chosen note. */
  function SelectionUrl(note: Note): string
  {
    NotePath + note.id
  }

  /** Reads the note id back from an address of the form `/note?id=...`. */
  function IdFromUrl(url: string): Option<string>
  {
    if |url| >= |NotePath| && url[..|NotePath|] == NotePath then Some(url[|NotePath|..]) else None
  }

  /** The address of a chosen note starts with `/note?id=` and carries exactly
      its id, so distinct ids give distinct addresses. */
  lemma SelectionUrlCarriesId(note: Note, other: Note)
    ensures IdFromUrl(SelectionUrl(note)) == Some(note.id)
    ensures SelectionUrl(note) == SelectionUrl(other) ==> note.id == other.id
  {
    assert SelectionUrl(note)[..|NotePath|] == NotePath;
    assert SelectionUrl(note)[|NotePath|..] == note.id;
    assert SelectionUrl(other)[|NotePath|..] == other.id;
  }
}
