/** The file upload page (src/pages/FileUpload.jsx): a list of chosen files
    that grows through a bounded accept loop, shrinks by index, and is
    checked for emptiness and total size on submit. */
module FileUpload {

  /** A browser `File` as the page reads it: its name and its size in
      bytes. */
  datatype UploadFile = UploadFile(name: string, size: nat)

  const MaxFiles: nat := 5
  const MaxSize: nat := 1024 * 1024 * 1024
  const MaxTotalSize: nat := 5 * 1024 * 1024 * 1024

  // ------------------------------------------------------------ selection

  /** The selected files that pass the per-file limit, in selection order. */
  function Accepted(s: seq<UploadFile>): seq<UploadFile>
    decreases |s|
  {
    if |s| == 0 then []
    else
      var last := s[|s| - 1];
      Accepted(s[..|s| - 1]) + (if last.size <= MaxSize then [last] else [])
  }

  /** The first `n` elements of `s`, or all of them when there are fewer. */
  function Take<T>(s: seq<T>, n: nat): (t: seq<T>)
    ensures |t| == if n < |s| then n else |s|
    ensures t == s[..|t|]
  {
    if n < |s| then s[..n] else s
  }

  /** The room left under the file limit. */
  function Room(prev: seq<UploadFile>): nat {
    if |prev| >= MaxFiles then 0 else MaxFiles - |prev|
  }

  /** The list `handleFileChange` hands to `setFiles`: the previous files,
      then as many accepted selections as there is room for. */
  function SelectionResult(prev: seq<UploadFile>, selected: seq<UploadFile>): seq<UploadFile> {
    prev + Take(Accepted(selected), Room(prev))
  }

  /** Accepting one more selection appends it when it fits. */
  lemma AcceptedSnoc(s: seq<UploadFile>, i: nat)
    requires i < |s|
    ensures Accepted(s[..i + 1]) == Accepted(s[..i]) + (if s[i].size <= MaxSize then [s[i]] else [])
  {
    assert s[..i + 1][..i] == s[..i];
  }

  /** The accepted files of a prefix are a prefix of the accepted files. */
  lemma {:induction false} AcceptedPrefix(s: seq<UploadFile>, i: nat)
    requires i <= |s|
    ensures Accepted(s[..i]) <= Accepted(s)
    decreases |s| - i
  {
    if i < |s| {
      AcceptedPrefix(s, i + 1);
      AcceptedSnoc(s, i);
    } else {
      assert s[..i] == s;
    }
  }

  /** A file is accepted exactly when it was selected and is at most 1 GiB. */
  lemma {:induction false} AcceptedIff(s: seq<UploadFile>, f: UploadFile)
    ensures f in Accepted(s) <==> f in s && f.size <= MaxSize
    decreases |s|
  {
    if |s| > 0 {
      AcceptedIff(s[..|s| - 1], f);
      assert s == s[..|s| - 1] + [s[|s| - 1]];
    }
  }

  /** `handleFileChange`'s loop over a copy of the files: stop once the
      list holds `MaxFiles`, skip a file over `MaxSize`, append the rest. */
  method AcceptFiles(prev: seq<UploadFile>, selected: seq<UploadFile>) returns (newFiles: seq<UploadFile>)
    ensures newFiles == SelectionResult(prev, selected)
  {
    newFiles := prev;
    var i := 0;
    while i < |selected|
      invariant 0 <= i <= |selected|
      invariant newFiles == prev + Take(Accepted(selected[..i]), Room(prev))
      invariant |newFiles| < MaxFiles ==> newFiles == prev + Accepted(selected[..i])
    {
      var file := selected[i];
      if |newFiles| >= MaxFiles {
        AcceptedPrefix(selected, i);
        break;
      }
      AcceptedSnoc(selected, i);
      if file.size > MaxSize {
        i := i + 1;
        continue;
      }
      newFiles := newFiles + [file];
      i := i + 1;
    }
    assert i == |selected| ==> selected[..i] == selected;
  }

  /** The file limit is never passed, and a full list is left as it is. */
  lemma SelectionBounded(prev: seq<UploadFile>, selected: seq<UploadFile>)
    ensures |prev| < MaxFiles ==> |SelectionResult(prev, selected)| <= MaxFiles
    ensures |prev| >= MaxFiles ==> SelectionResult(prev, selected) == prev
  {
  }

  /** The previous files stay in front, in their order, and every added
      file was selected and is at most 1 GiB. */
  lemma SelectionKeepsPrefix(prev: seq<UploadFile>, selected: seq<UploadFile>)
    ensures var r := SelectionResult(prev, selected);
      |prev| <= |r| && r[..|prev|] == prev
    ensures var r := SelectionResult(prev, selected);
      forall j | |prev| <= j < |r| :: r[j] in selected && r[j].size <= MaxSize
  {
    var r := SelectionResult(prev, selected);
    assert r[..|prev|] == prev;
    forall j | |prev| <= j < |r|
      ensures r[j] in selected && r[j].size <= MaxSize
    {
      assert r[j] in Accepted(selected);
      AcceptedIff(selected, r[j]);
    }
  }

  /** A file of exactly 1 GiB is accepted; one byte more is refused. */
  lemma PerFileLimit(prev: seq<UploadFile>, name: string)
    requires |prev| < MaxFiles
    ensures SelectionResult(prev, [UploadFile(name, MaxSize)]) == prev + [UploadFile(name, MaxSize)]
    ensures SelectionResult(prev, [UploadFile(name, MaxSize + 1)]) == prev
  {
    assert [UploadFile(name, MaxSize)][..0] == [];
    assert Accepted([UploadFile(name, MaxSize)]) == [UploadFile(name, MaxSize)];
    assert [UploadFile(name, MaxSize + 1)][..0] == [];
    assert Accepted([UploadFile(name, MaxSize + 1)]) == [];
  }

  /** When every selection is within the per-file limit, all of them are
      accepted, in selection order. */
  lemma {:induction false} AllFitAccepted(s: seq<UploadFile>)
    requires forall i | 0 <= i < |s| :: s[i].size <= MaxSize
    ensures Accepted(s) == s
    decreases |s|
  {
    if |s| > 0 {
      AllFitAccepted(s[..|s| - 1]);
      assert s == s[..|s| - 1] + [s[|s| - 1]];
    }
  }

  // ------------------------------------------------------------ removal

  /** `prev.filter((_, i) => i !== index)`, scanning from the front. */
  function WithoutIndex<T>(s: seq<T>, index: int): seq<T>
    decreases |s|
  {
    if |s| == 0 then []
    else WithoutIndex(s[..|s| - 1], index) + (if |s| - 1 != index then [s[|s| - 1]] else [])
  }

  /** Removal deletes exactly the element at `index`, keeping the others in
      order; an index outside the list changes nothing. */
  lemma {:induction false} WithoutIndexDeletes<T>(s: seq<T>, index: int)
    ensures 0 <= index < |s| ==> WithoutIndex(s, index) == s[..index] + s[index + 1..]
    ensures !(0 <= index < |s|) ==> WithoutIndex(s, index) == s
    decreases |s|
  {
    if |s| > 0 {
      var init := s[..|s| - 1];
      WithoutIndexDeletes(init, index);
      if index == |s| - 1 {
        assert s[..index] == init;
        assert s[index + 1..] == [];
      } else if 0 <= index < |s| - 1 {
        assert init[..index] == s[..index];
        assert init[index + 1..] + [s[|s| - 1]] == s[index + 1..];
      } else {
        assert init + [s[|s| - 1]] == s;
      }
    }
  }

  // ------------------------------------------------------------ submit

  /** `files.reduce((acc, f) => acc + f.size, 0)`. */
  function TotalSize(files: seq<UploadFile>): nat
    decreases |files|
  {
    if |files| == 0 then 0 else TotalSize(files[..|files| - 1]) + files[|files| - 1].size
  }

  datatype SubmitResult = NoFiles | TotalTooLarge | Submitted

  /** `handleSubmit`'s two checks, in order. */
  function SubmitOutcome(files: seq<UploadFile>): (r: SubmitResult)
    ensures r == NoFiles <==> |files| == 0
    ensures r == TotalTooLarge <==> |files| > 0 && TotalSize(files) > MaxTotalSize
  {
    if |files| == 0 then NoFiles
    else if TotalSize(files) > MaxTotalSize then TotalTooLarge
    else Submitted
  }

  /** Removing a file takes exactly its size off the total. */
  lemma {:induction false} TotalSizeWithout(s: seq<UploadFile>, index: int)
    requires 0 <= index < |s|
    ensures TotalSize(WithoutIndex(s, index)) + s[index].size == TotalSize(s)
    decreases |s|
  {
    var init := s[..|s| - 1];
    if index < |s| - 1 {
      TotalSizeWithout(init, index);
      assert init[index] == s[index];
      var rest := WithoutIndex(init, index);
      assert (rest + [s[|s| - 1]])[..|rest|] == rest;
    } else {
      WithoutIndexDeletes(init, index);
      assert WithoutIndex(s, index) == init;
    }
  }

  // ------------------------------------------------------------ invariant

  /** What the page keeps true of its list: at most `MaxFiles` files, each
      at most `MaxSize`. */
  predicate ValidFiles(files: seq<UploadFile>) {
    |files| <= MaxFiles && forall i | 0 <= i < |files| :: files[i].size <= MaxSize
  }

  /** A list of `n` files within the per-file limit totals at most
      `n * MaxSize`. */
  lemma {:induction false} TotalSizeBound(files: seq<UploadFile>)
    requires forall i | 0 <= i < |files| :: files[i].size <= MaxSize
    ensures TotalSize(files) <= |files| * MaxSize
    decreases |files|
  {
    if |files| > 0 {
      TotalSizeBound(files[..|files| - 1]);
    }
  }

  /** A valid list never fails the total size check. */
  lemma ValidNeverTooLarge(files: seq<UploadFile>)
    requires ValidFiles(files)
    ensures TotalSize(files) <= MaxTotalSize
    ensures SubmitOutcome(files) != TotalTooLarge
  {
    TotalSizeBound(files);
  }

  lemma SelectionKeepsValid(prev: seq<UploadFile>, selected: seq<UploadFile>)
    requires ValidFiles(prev)
    ensures ValidFiles(SelectionResult(prev, selected))
  {
    SelectionKeepsPrefix(prev, selected);
  }

  lemma RemovalKeepsValid(files: seq<UploadFile>, index: int)
    requires ValidFiles(files)
    ensures ValidFiles(WithoutIndex(files, index))
  {
    WithoutIndexDeletes(files, index);
    if 0 <= index < |files| {
      var r := WithoutIndex(files, index);
      forall i | 0 <= i < |r|
        ensures r[i].size <= MaxSize
      {
        if i < index {
          assert r[i] == files[i];
        } else {
          assert r[i] == files[i + 1];
        }
      }
    }
  }

  /** What a user can do to the list. */
  datatype Action = Select(selected: seq<UploadFile>) | Remove(index: int)

  /** The list after the actions, from `start`. */
  function Replay(start: seq<UploadFile>, actions: seq<Action>): seq<UploadFile>
    decreases |actions|
  {
    if |actions| == 0 then start
    else
      var prior := Replay(start, actions[..|actions| - 1]);
      match actions[|actions| - 1]
      case Select(selected) => SelectionResult(prior, selected)
      case Remove(index) => WithoutIndex(prior, index)
  }

  /** Any list built from the empty one by selecting and removing files is
      valid, so the total size check at submit never fires for it. */
  lemma {:induction false} ReplayNeverTooLarge(actions: seq<Action>)
    ensures ValidFiles(Replay([], actions))
    ensures SubmitOutcome(Replay([], actions)) != TotalTooLarge
    decreases |actions|
  {
    if |actions| > 0 {
      var prior := Replay([], actions[..|actions| - 1]);
      ReplayNeverTooLarge(actions[..|actions| - 1]);
      match actions[|actions| - 1]
      case Select(selected) => SelectionKeepsValid(prior, selected);
      case Remove(index) => RemovalKeepsValid(prior, index);
    }
    ValidNeverTooLarge(Replay([], actions));
  }

  // ------------------------------------------------------------ the page

  /** The page's `files` state and the handlers that replace it. */
  class FileUploadPage {
    var files: seq<UploadFile>

    predicate Valid()
      reads this
    {
      ValidFiles(files)
    }

    /** `useState([])`. */
    constructor ()
      ensures files == [] && Valid()
    {
      files := [];
    }

    /** `handleFileChange`: the accepted list replaces the state. */
    method HandleFileChange(selected: seq<UploadFile>)
      requires Valid()
      modifies this
      ensures files == SelectionResult(old(files), selected)
      ensures Valid()
    {
      var newFiles := AcceptFiles(files, selected);
      SelectionKeepsValid(files, selected);
      files := newFiles;
    }

    /** `removeFile`. */
    method RemoveFile(index: int)
      requires Valid()
      modifies this
      ensures files == WithoutIndex(old(files), index)
      ensures Valid()
    {
      RemovalKeepsValid(files, index);
      files := WithoutIndex(files, index);
    }

    /** `handleSubmit`, with its alerts reduced to the outcome. */
    method HandleSubmit() returns (r: SubmitResult)
      requires Valid()
      ensures r == SubmitOutcome(files)
      ensures r != TotalTooLarge
    {
      ValidNeverTooLarge(files);
      r := SubmitOutcome(files);
    }
  }
}
