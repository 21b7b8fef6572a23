/** The file editor with undo: create, replace a string, insert lines, undo. */
module EditFile {
  import opened Sequences
  import opened TextLines

  type Path = string

  const SNIPPET_LINES: nat := 4
  const MAX_RESPONSE_LEN: nat := 16000

  datatype Content = Utf8(text: string) | NotUtf8

  /** `files` and `dirs` are the sandbox; `history` is the editor's: previous contents, newest last. */
  datatype State = State(files: map<Path, Content>, dirs: set<Path>, history: map<Path, seq<string>>)

  datatype Command =
    | Create(path: Path, parent: Path, fileText: Option<string>)
    | StrReplace(path: Path, oldStr: Option<string>, newStr: Option<string>)
    | Insert(path: Path, insertLine: Option<int>, newText: Option<string>)
    | UndoEdit(path: Path)

  function History(s: State, path: Path): seq<string> {
    if path in s.history then s.history[path] else []
  }

  predicate IsFile(s: State, path: Path) {
    path in s.files && path !in s.dirs
  }

  predicate Readable(s: State, path: Path) {
    IsFile(s, path) && s.files[path].Utf8?
  }

  /** A file's text as an edit sees it: with one kind of line end and without tabs. */
  function Normalized(text: string): string {
    ExpandTabs(NormalNewlines(text), 0)
  }

  function Read(s: State, path: Path): string
    requires Readable(s, path)
  {
    Normalized(s.files[path].text)
  }

  /** A successful edit: the text it read, kept for undo, and the text it wrote. */
  datatype Edit = Edit(read: string, written: string)

  function CreateOf(s: State, c: Command): Option<Edit>
    requires c.Create?
  {
    if c.path != "" && c.path[|c.path| - 1] != '/' && c.path !in s.files && c.path !in s.dirs
       && c.fileText.Some? && c.parent in s.dirs
    then Some(Edit("", c.fileText.value))
    else None
  }

  /** An absent replacement text is the empty one. */
  function NewStr(c: Command): string
    requires c.StrReplace?
  {
    if c.newStr.Some? then c.newStr.value else ""
  }

  function StrReplaceOf(s: State, c: Command): Option<Edit>
    requires c.StrReplace?
  {
    if c.path == "" || !Readable(s, c.path) || c.oldStr.None? || c.oldStr.value == "" then None
    else
      var read := Read(s, c.path);
      var oldStr := ExpandTabs(c.oldStr.value, 0);
      var newStr := ExpandTabs(NewStr(c), 0);
      if Count(read, oldStr) == 1 && newStr != oldStr
      then Some(Edit(read, Replace(read, oldStr, newStr)))
      else None
  }

  function Inserted(read: string, k: nat, newText: string): string
    requires k <= |Split(read)|
  {
    Join(Split(read)[..k] + Split(newText) + Split(read)[k..])
  }

  function InsertOf(s: State, c: Command): Option<Edit>
    requires c.Insert?
  {
    if c.path == "" || !Readable(s, c.path) || c.insertLine.None? || c.newText.None? then None
    else
      var read := Read(s, c.path);
      var lines := Split(read);
      if 0 <= c.insertLine.value <= |lines| then
        Some(Edit(read, Inserted(read, c.insertLine.value, ExpandTabs(c.newText.value, 0))))
      else None
  }

  /** What a command edits, if it succeeds as an edit. */
  function EditOf(s: State, c: Command): Option<Edit> {
    match c
    case Create(_, _, _) => CreateOf(s, c)
    case StrReplace(_, _, _) => StrReplaceOf(s, c)
    case Insert(_, _, _) => InsertOf(s, c)
    case UndoEdit(_) => None
  }

  function Write(s: State, path: Path, text: string, history: seq<string>): State {
    s.(files := s.files[path := Utf8(text)], history := s.history[path := history])
  }

  predicate Undoes(s: State, c: Command) {
    c.UndoEdit? && c.path != "" && IsFile(s, c.path) && History(s, c.path) != []
  }

  function Step(s: State, c: Command): State {
    var edit := EditOf(s, c);
    var past := History(s, c.path);
    if edit.Some? then Write(s, c.path, edit.value.written, past + [edit.value.read])
    else if Undoes(s, c) then Write(s, c.path, past[|past| - 1], past[..|past| - 1])
    else s
  }

  // ----- what an edit writes -----

  /** The text with this occurrence of `oldStr`, and no other that does not overlap it, replaced. */
  ghost predicate Replaced(read: string, oldStr: string, newStr: string, written: string) {
    exists k: nat ::
      && At(read, k, oldStr) && written == read[..k] + newStr + read[k + |oldStr|..]
      && forall i: nat :: At(read, i, oldStr) ==> k <= i < k + |oldStr|
  }

  /** What is on disk after an edit that succeeds: a create writes the text it is given; a replacement puts
      the new text where the old one was; an insert puts the new lines behind the given one.  The two last
      start from the file with one kind of line end and without tabs, and remember that. */
  lemma EditWrites(s: State, c: Command)
    requires EditOf(s, c).Some?
    ensures var s' := Step(s, c);
            && s' == State(s.files[c.path := s'.files[c.path]], s.dirs, s.history[c.path := s'.history[c.path]])
            && s'.files[c.path].Utf8?
            && var written := s'.files[c.path].text;
               match c
               case Create(_, _, fileText) =>
                 && c.path !in s.files && c.path !in s.dirs
                 && fileText == Some(written) && s'.history[c.path] == History(s, c.path) + [""]
               case StrReplace(_, oldStr, newStr) =>
                 && oldStr.Some? && Readable(s, c.path)
                 && var read := ExpandTabs(OneKindOfEnd(s.files[c.path].text), 0);
                    && s'.history[c.path] == History(s, c.path) + [read]
                    && Replaced(read, ExpandTabs(oldStr.value, 0),
                                ExpandTabs(if newStr.Some? then newStr.value else "", 0), written)
               case Insert(_, insertLine, newText) =>
                 && insertLine.Some? && newText.Some? && Readable(s, c.path)
                 && var read := ExpandTabs(OneKindOfEnd(s.files[c.path].text), 0);
                    && s'.history[c.path] == History(s, c.path) + [read]
                    && 0 <= insertLine.value <= |Split(read)|
                    && Split(written) == Split(read)[..insertLine.value] + Split(ExpandTabs(newText.value, 0)) +
                                         Split(read)[insertLine.value..]
               case UndoEdit(_) => false
  {
    match c
    case Create(_, _, _) =>
    case StrReplace(_, _, _) => ReplaceWrites(s, c);
    case Insert(_, _, _) => InsertWrites(s, c);
    case UndoEdit(_) =>
  }

  lemma ReplaceWrites(s: State, c: Command)
    requires c.StrReplace? && StrReplaceOf(s, c).Some?
    ensures Read(s, c.path) == ExpandTabs(OneKindOfEnd(s.files[c.path].text), 0)
    ensures Replaced(Read(s, c.path), ExpandTabs(c.oldStr.value, 0), ExpandTabs(NewStr(c), 0),
                     StrReplaceOf(s, c).value.written)
  {
    hide ExpandTabs, NormalNewlines, OneKindOfEnd, Count, Replace, Before, At;
    NormalInOnePass(s.files[c.path].text);
    var read, oldStr := Read(s, c.path), ExpandTabs(c.oldStr.value, 0);
    ReplaceOnly(read, oldStr, ExpandTabs(NewStr(c), 0));
    assert At(read, |Before(read, oldStr)|, oldStr);
  }

  lemma InsertWrites(s: State, c: Command)
    requires c.Insert? && InsertOf(s, c).Some?
    ensures Read(s, c.path) == ExpandTabs(OneKindOfEnd(s.files[c.path].text), 0)
    ensures var lines, k := Split(Read(s, c.path)), c.insertLine.value;
            Split(InsertOf(s, c).value.written) == lines[..k] + Split(ExpandTabs(c.newText.value, 0)) + lines[k..]
  {
    hide ExpandTabs, NormalNewlines, OneKindOfEnd, Split, Inserted;
    NormalInOnePass(s.files[c.path].text);
    InsertSplices(Read(s, c.path), c.insertLine.value, ExpandTabs(c.newText.value, 0));
  }

  // ----- undo -----

  /** Other tools may change the sandbox between commands, but not the editor's history. */
  datatype Event = Do(command: Command) | Outside(files: map<Path, Content>, dirs: set<Path>)

  function After(s: State, e: Event): State {
    match e
    case Do(command) => Step(s, command)
    case Outside(files, dirs) => State(files, dirs, s.history)
  }

  function Run(s: State, events: seq<Event>): State
    decreases |events|
  {
    if events == [] then s else Run(After(s, events[0]), events[1..])
  }

  predicate UndoesPath(e: Event, path: Path) {
    e.Do? && e.command.UndoEdit? && e.command.path == path
  }

  /** What an event reads of the path, if it is a successful edit of it. */
  function ReadBy(s: State, e: Event, path: Path): seq<string> {
    if e.Do? && e.command.path == path && EditOf(s, e.command).Some?
    then [EditOf(s, e.command).value.read] else []
  }

  /** What the successful edits of one path read, in order. */
  function Reads(s: State, events: seq<Event>, path: Path): seq<string>
    decreases |events|
  {
    if events == [] then [] else ReadBy(s, events[0], path) + Reads(After(s, events[0]), events[1..], path)
  }

  lemma EditPushes(s: State, e: Event, path: Path)
    requires !UndoesPath(e, path)
    ensures History(After(s, e), path) == History(s, path) + ReadBy(s, e, path)
  {
  }

  lemma {:induction false} EditsPush(s: State, events: seq<Event>, path: Path)
    requires forall e :: e in events ==> !UndoesPath(e, path)
    ensures History(Run(s, events), path) == History(s, path) + Reads(s, events, path)
    decreases |events|
  {
    hide EditOf, Step;
    if events != [] {
      EditPushes(s, events[0], path);
      EditsPush(After(s, events[0]), events[1..], path);
    }
  }

  /** Undo commands of one path, with anything in between that leaves the path a file and does not
      edit it. */
  predicate Undoing(s: State, events: seq<Event>, path: Path)
    decreases |events|
  {
    events == [] ||
    (IsFile(After(s, events[0]), path) &&
     (events[0].Do? && events[0].command.path == path ==> events[0].command.UndoEdit?) &&
     Undoing(After(s, events[0]), events[1..], path))
  }

  function Undos(events: seq<Event>, path: Path): nat {
    if events == [] then 0 else (if UndoesPath(events[0], path) then 1 else 0) + Undos(events[1..], path)
  }

  lemma {:induction false} UndosPop(s: State, events: seq<Event>, path: Path)
    requires path != "" && IsFile(s, path) && Undoing(s, events, path)
    requires Undos(events, path) <= |History(s, path)|
    ensures History(Run(s, events), path) == History(s, path)[..|History(s, path)| - Undos(events, path)]
    ensures IsFile(Run(s, events), path)
    decreases |events|
  {
    if events != [] {
      var next := After(s, events[0]);
      var past := History(s, path);
      if UndoesPath(events[0], path) {
        assert History(next, path) == past[..|past| - 1];
      } else {
        assert History(next, path) == past;
      }
      UndosPop(next, events[1..], path);
    }
  }

  /** However many edits succeed, among refused commands, edits of other files and changes by other
      tools: the j-th undo after them writes exactly what the j-th edit from the end had read. */
  lemma UndoRestores(s: State, edits: seq<Event>, undos: seq<Event>, path: Path)
    requires path != "" && forall e :: e in edits ==> !UndoesPath(e, path)
    requires IsFile(Run(s, edits), path) && Undoing(Run(s, edits), undos, path)
    requires Undos(undos, path) < |Reads(s, edits, path)|
    ensures var texts := Reads(s, edits, path);
            var left := |texts| - (Undos(undos, path) + 1);
            var end := Step(Run(Run(s, edits), undos), UndoEdit(path));
            && path in end.files && end.files[path] == Utf8(texts[left])
            && History(end, path) == History(s, path) + texts[..left]
  {
    hide Step, EditOf, Undoing;
    EditsPush(s, edits, path);
    var edited := Run(s, edits);
    UndosPop(edited, undos, path);
    var texts := Reads(s, edits, path);
    var kept := |texts| - Undos(undos, path);
    TakeConcat(History(s, path), texts, kept);
    UndoWrites(Run(edited, undos), path, History(s, path), texts[..kept]);
    assert texts[..kept][..kept - 1] == texts[..kept - 1];
  }

  lemma TakeConcat(a: seq<string>, b: seq<string>, k: nat)
    requires k <= |b|
    ensures (a + b)[..|a| + k] == a + b[..k]
  {
  }

  lemma UndoWrites(s: State, path: Path, older: seq<string>, newer: seq<string>)
    requires path != "" && IsFile(s, path) && newer != [] && History(s, path) == older + newer
    ensures var end := Step(s, UndoEdit(path));
            && path in end.files && end.files[path] == Utf8(newer[|newer| - 1])
            && History(end, path) == older + newer[..|newer| - 1]
  {
    TakeConcat(older, newer, |newer| - 1);
  }

  lemma NormalizedIsFixed(text: string)
    ensures Normalized(text) == text <==> '\r' !in text && '\t' !in text
  {
    var normal := NormalNewlines(text);
    NoReturnsLeft(Replace(text, "\r\n", "\n"));
    NoTabsLeft(normal, 0);
    NothingToExpand(normal, 0);
    NothingToNormalize(text);
  }

  lemma EditRemembers(s: State, c: Command)
    requires !c.Create? && EditOf(s, c).Some?
    ensures c.path != "" && Readable(s, c.path) && IsFile(Step(s, c), c.path)
    ensures History(Step(s, c), c.path) == History(s, c.path) + [Read(s, c.path)]
  {
  }

  /** One edit and its undo bring a file back exactly when it had neither tabs nor carriage returns. */
  lemma EditThenUndo(s: State, c: Command)
    requires !c.Create? && EditOf(s, c).Some?
    ensures var end := Step(Step(s, c), UndoEdit(c.path));
            && c.path in end.files && end.files[c.path] == Utf8(Normalized(s.files[c.path].text))
            && (end.files[c.path] == s.files[c.path] <==>
                '\r' !in s.files[c.path].text && '\t' !in s.files[c.path].text)
            && History(end, c.path) == History(s, c.path)
  {
    EditRemembers(s, c);
    hide EditOf, Step, Normalized;
    NormalizedIsFixed(s.files[c.path].text);
    UndoWrites(Step(s, c), c.path, History(s, c.path), [Read(s, c.path)]);
  }

  /** A file that is one tab comes back as eight blanks. */
  lemma TabIsNotRestored(s: State, path: Path)
    requires path != "" && IsFile(s, path) && s.files[path] == Utf8("\t")
    ensures var insert := Insert(path, Some(0), Some(""));
            EditOf(s, insert).Some? &&
            var end := Step(Step(s, insert), UndoEdit(path));
            path in end.files && end.files[path] == Utf8(Spaces(8)) && Spaces(8) != "\t"
  {
    EditThenUndo(s, Insert(path, Some(0), Some("")));
    NothingToNormalize("\t");
    assert "\t"[1..] == "";
    assert ExpandTabs("\t", 0) == Spaces(8) + ExpandTabs("", 8);
    assert Spaces(8)[0] == ' ';
  }

  /** Undoing a create leaves an empty file behind, so the same create is refused afterwards. */
  lemma UndoneCreateLeavesEmptyFile(s: State, c: Command)
    requires c.Create? && EditOf(s, c).Some?
    ensures var end := Step(Step(s, c), UndoEdit(c.path));
            IsFile(end, c.path) && end.files[c.path] == Utf8("") && EditOf(end, c).None?
  {
    assert History(Step(s, c), c.path) == History(s, c.path) + [""];
  }

  // ----- insert and its numbered snippet -----

  /** The file an insert writes has the old lines with the new ones spliced in. */
  lemma InsertSplices(read: string, k: nat, newText: string)
    requires k <= |Split(read)|
    ensures Split(Inserted(read, k, newText)) == Split(read)[..k] + Split(newText) + Split(read)[k..]
  {
    SplitIsLines(read);
    SplitIsLines(newText);
    SplitJoin(Split(read)[..k] + Split(newText) + Split(read)[k..]);
  }

  datatype Numbered = Numbered(number: nat, line: string)

  /** `notice` is the text that marks a clipped response. */
  function MaybeTruncate(content: string, notice: string): (r: string)
    ensures |r| <= MAX_RESPONSE_LEN + |notice|
  {
    if |content| <= MAX_RESPONSE_LEN then content else content[..MAX_RESPONSE_LEN] + notice
  }

  function Number(lines: seq<string>, init: nat): seq<Numbered> {
    seq(|lines|, i requires 0 <= i < |lines| => Numbered(init + i, lines[i]))
  }

  /** `cat -n` numbering from `init`. */
  function MakeOutput(content: string, notice: string, init: nat): seq<Numbered> {
    Number(Split(ExpandTabs(MaybeTruncate(content, notice), 0)), init)
  }

  function Max(a: nat, b: int): (r: nat) {
    if b <= a then a else b
  }

  function Min(a: nat, b: nat): nat {
    if a <= b then a else b
  }

  /** Python's slice of a list, whose bounds may lie outside it. */
  function Slice(lines: seq<string>, from: nat, to: nat): seq<string> {
    var end := Min(to, |lines|);
    if from <= end then lines[from..end] else []
  }

  function JoinAll(lines: seq<string>): string {
    if lines == [] then "" else Join(lines)
  }

  /** The lines an insert shows, and the number of the first. */
  function InsertSnippet(read: string, k: nat, newText: string): (string, nat) {
    var lines := Split(read);
    var from := Max(0, k - SNIPPET_LINES);
    (JoinAll(Slice(lines, from, k) + Split(newText) + Slice(lines, k, k + SNIPPET_LINES)),
     Max(1, k - SNIPPET_LINES + 1))
  }

  /** The lines a replacement shows, and the number of the first; `before` is the text in front of
      the replaced one. */
  function ReplaceSnippet(before: string, newStr: string, written: string): (string, nat) {
    var line := Newlines(before);
    var start := Max(1, line - SNIPPET_LINES);
    (JoinAll(Slice(Split(written), start - 1,
                   Min(line + SNIPPET_LINES + Newlines(newStr), LineCount(written, false)))), start)
  }

  ghost predicate Window(shown: seq<string>, start: nat, lines: seq<string>) {
    start >= 1 && start - 1 + |shown| <= |lines| && shown == lines[start - 1..start - 1 + |shown|]
  }

  /** A snippet that is the lines of a file from its number on. */
  ghost predicate ShowsFile(snippet: (string, nat), file: string) {
    Window(Split(snippet.0), snippet.1, Split(file))
  }

  lemma WindowShowsFile(shown: seq<string>, start: nat, file: string)
    requires shown != [] && Window(shown, start, Split(file))
    ensures ShowsFile((JoinAll(shown), start), file)
  {
    var lines := Split(file);
    SplitIsLines(file);
    forall i | 0 <= i < |shown| ensures NoNewline(shown[i]) {
      assert shown[i] == lines[start - 1 + i];
    }
    SplitJoin(shown);
  }

  lemma SpliceWindow(lines: seq<string>, added: seq<string>, k: nat)
    requires k <= |lines|
    ensures Window(Slice(lines, Max(0, k - SNIPPET_LINES), k) + added + Slice(lines, k, k + SNIPPET_LINES),
                   Max(1, k - SNIPPET_LINES + 1), lines[..k] + added + lines[k..])
  {
    var from, to := Max(0, k - SNIPPET_LINES), Min(k + SNIPPET_LINES, |lines|);
    SliceOfSplice(lines[..k], added, lines[k..], from, to - k);
    assert lines[..k][from..] == lines[from..k];
    assert lines[k..][..to - k] == lines[k..to];
  }

  lemma SliceOfSplice(a: seq<string>, b: seq<string>, c: seq<string>, from: nat, to: nat)
    requires from <= |a| && to <= |c|
    ensures (a + b + c)[from..|a| + |b| + to] == a[from..] + b + c[..to]
  {
  }

  /** What an insert shows are lines of the file it wrote, under their own numbers. */
  lemma InsertShowsFile(read: string, k: nat, newText: string)
    requires k <= |Split(read)|
    ensures ShowsFile(InsertSnippet(read, k, newText), Inserted(read, k, newText))
  {
    InsertSplices(read, k, newText);
    SpliceWindow(Split(read), Split(newText), k);
    WindowShowsFile(Slice(Split(read), Max(0, k - SNIPPET_LINES), k) + Split(newText) +
                    Slice(Split(read), k, k + SNIPPET_LINES),
                    Max(1, k - SNIPPET_LINES + 1), Inserted(read, k, newText));
  }

  /** It shows the new lines with up to four lines on either side. */
  lemma InsertShowsNeighbours(read: string, k: nat, newText: string)
    requires k <= |Split(read)|
    ensures var (text, start) := InsertSnippet(read, k, newText);
            var above := if k < 4 then k else 4;
            var below := if |Split(read)| - k < 4 then |Split(read)| - k else 4;
            && start == k - above + 1
            && |Split(text)| == above + |Split(newText)| + below
  {
    InsertSplices(read, k, newText);
    var lines, from := Split(read), Max(0, k - SNIPPET_LINES);
    var shown := Slice(lines, from, k) + Split(newText) + Slice(lines, k, k + SNIPPET_LINES);
    SpliceWindow(lines, Split(newText), k);
    SplitIsLines(Inserted(read, k, newText));
    SplitJoin(shown);
  }

  lemma ReplaceNewlines(read: string, oldStr: string, newStr: string)
    requires oldStr != "" && Count(read, oldStr) == 1
    ensures Newlines(Before(read, oldStr)) + Newlines(newStr) <= Newlines(Replace(read, oldStr, newStr))
  {
    ReplaceOnly(read, oldStr, newStr);
    BeforeFirst(read, oldStr);
    var k := |Before(read, oldStr)|;
    NewlinesConcat(read[..k] + newStr, read[k + |oldStr|..]);
    NewlinesConcat(read[..k], newStr);
  }

  lemma ReplaceWindow(lines: seq<string>, line: nat, to: nat)
    requires line < |lines| && line <= to
    ensures Window(Slice(lines, Max(1, line - SNIPPET_LINES) - 1, to), Max(1, line - SNIPPET_LINES), lines)
    ensures Slice(lines, Max(1, line - SNIPPET_LINES) - 1, to) == [] ==> to == 0
  {
  }

  lemma EmptyShowsFile()
    ensures ShowsFile((JoinAll([]), 1), "")
  {
    assert JoinAll([]) == "" && Split("") == [""];
  }

  lemma WindowUpToShowsFile(line: nat, far: nat, total: nat, file: string)
    requires line <= Newlines(file) <= total && line < far && (total == 0 <==> file == "")
    ensures ShowsFile((JoinAll(Slice(Split(file), Max(1, line - SNIPPET_LINES) - 1, Min(far, total))),
                       Max(1, line - SNIPPET_LINES)), file)
  {
    SplitCount(file);
    hide Split, Newlines, JoinAll, Window, ShowsFile;
    var lines, start := Split(file), Max(1, line - SNIPPET_LINES);
    if file == "" {
      EmptyShowsFile();
    } else {
      assert Min(far, total) > 0;
      ReplaceWindow(lines, line, Min(far, total));
      WindowShowsFile(Slice(lines, start - 1, Min(far, total)), start, file);
    }
  }

  lemma ReplaceSnippetShowsFile(before: string, newStr: string, file: string)
    requires Newlines(before) + Newlines(newStr) <= Newlines(file)
    ensures ShowsFile(ReplaceSnippet(before, newStr, file), file)
  {
    hide Split, JoinAll, Slice, Window, Newlines;
    LineCountAtLeast(file, false);
    var line, total := Newlines(before), LineCount(file, false);
    var far := line + SNIPPET_LINES + Newlines(newStr);
    var start := Max(1, line - SNIPPET_LINES);
    var shown := Slice(Split(file), start - 1, Min(far, total));
    assert ReplaceSnippet(before, newStr, file) == (JoinAll(shown), start);
    assert ShowsFile((JoinAll(shown), start), file) by {
      WindowUpToShowsFile(line, far, total, file);
    }
  }

  /** It starts up to five lines above the line that changed and ends up to three lines below the last new
      line, or where the file ends. */
  lemma ReplaceShowsNeighbours(before: string, newStr: string, after: string)
    requires OnlyNewlines(before + newStr + after) && before + newStr + after != ""
    ensures var file := before + newStr + after;
            var (text, start) := ReplaceSnippet(before, newStr, file);
            var changed, last := Newlines(before) + 1, Newlines(before) + Newlines(newStr) + 1;
            var end := Newlines(file) + if file[|file| - 1] == '\n' then 0 else 1;
            && start == (if changed <= 6 then 1 else changed - 5)
            && start + |Split(text)| - 1 == if end < last + 3 then end else last + 3
  {
    hide Split, Newlines, LineCount, JoinAll, Lines, OnlyNewlines;
    var file := before + newStr + after;
    NewlinesConcat(before + newStr, after);
    NewlinesConcat(before, newStr);
    LineCountExact(file, false);
    LineCountAtLeast(file, false);
    SplitCount(file);
    SplitIsLines(file);
    var line, total := Newlines(before), LineCount(file, false);
    var start, to := Max(1, line - SNIPPET_LINES), Min(line + SNIPPET_LINES + Newlines(newStr), total);
    assert start - 1 < to <= |Split(file)|;
    SliceLength(Split(file), start - 1, to);
  }

  lemma SliceLength(lines: seq<string>, from: nat, to: nat)
    requires Lines(lines) && from < to <= |lines|
    ensures |Split(JoinAll(Slice(lines, from, to)))| == to - from
  {
    SplitJoin(lines[from..to]);
  }

  /** What a replacement shows are lines of the file it wrote, under their own numbers. */
  lemma ReplaceShowsFile(read: string, oldStr: string, newStr: string)
    requires oldStr != "" && Count(read, oldStr) == 1
    ensures var written := Replace(read, oldStr, newStr);
            ShowsFile(ReplaceSnippet(Before(read, oldStr), newStr, written), written)
  {
    ReplaceNewlines(read, oldStr, newStr);
    ReplaceSnippetShowsFile(Before(read, oldStr), newStr, Replace(read, oldStr, newStr));
  }

  /** Line i of a snippet comes through truncation whole. */
  predicate WholeLine(snippet: (string, nat), i: nat) {
    if |snippet.0| <= MAX_RESPONSE_LEN then i < |Split(snippet.0)|
    else i < Newlines(snippet.0[..MAX_RESPONSE_LEN])
  }

  /** Every whole line is shown as the line of the file that has its number. */
  ghost predicate ShowsLinesOf(output: seq<Numbered>, snippet: (string, nat), file: string) {
    snippet.1 >= 1 && forall i: nat :: WholeLine(snippet, i) ==> ShowsLine(output, snippet.1, i, file)
  }

  ghost predicate ShowsLine(output: seq<Numbered>, start: nat, i: nat, file: string)
    requires start >= 1
  {
    && i < |output| && start + i - 1 < |Split(file)|
    && output[i] == Numbered(start + i, Split(file)[start + i - 1])
  }

  lemma NumberedLinesAreReal(snippet: (string, nat), notice: string, file: string, i: nat)
    requires '\t' !in snippet.0 && ShowsFile(snippet, file) && WholeLine(snippet, i)
    ensures ShowsLine(MakeOutput(snippet.0, notice, snippet.1), snippet.1, i, file)
  {
    var content := snippet.0;
    if |content| <= MAX_RESPONSE_LEN {
      NothingToExpand(content, 0);
    } else {
      var whole := content[..MAX_RESPONSE_LEN];
      assert content == whole + content[MAX_RESPONSE_LEN..];
      NothingToExpand(whole, 0);
      var rest := ExpandPrefix(whole, notice, 0);
      SplitCount(whole);
      SplitPrefix(whole, rest, i);
      SplitPrefix(whole, content[MAX_RESPONSE_LEN..], i);
    }
  }

  lemma SnippetHasNoTabs(snippet: (string, nat), file: string)
    requires '\t' !in file && ShowsFile(snippet, file)
    ensures '\t' !in snippet.0
  {
    CharsOfLines(file, '\t');
    CharsOfJoin(Split(snippet.0), '\t');
    JoinSplit(snippet.0);
  }

  lemma InsertedHasNoTabs(read: string, k: nat, newText: string)
    requires k <= |Split(read)| && '\t' !in read && '\t' !in newText
    ensures '\t' !in Inserted(read, k, newText)
  {
    CharsOfLines(read, '\t');
    CharsOfLines(newText, '\t');
    CharsOfJoin(Split(read)[..k] + Split(newText) + Split(read)[k..], '\t');
  }

  /** An edit of an existing file writes no tab, whatever the file and the arguments hold. */
  lemma EditWritesNoTabs(s: State, c: Command)
    requires !c.Create? && EditOf(s, c).Some?
    ensures '\t' !in EditOf(s, c).value.written
  {
    var read := Read(s, c.path);
    NoTabsLeft(NormalNewlines(s.files[c.path].text), 0);
    if c.Insert? {
      NoTabsLeft(c.newText.value, 0);
      InsertedHasNoTabs(read, c.insertLine.value, ExpandTabs(c.newText.value, 0));
    } else {
      NoTabsLeft(NewStr(c), 0);
      ReplaceOnly(read, ExpandTabs(c.oldStr.value, 0), ExpandTabs(NewStr(c), 0));
    }
  }

  /** The snippet that a successful edit answers with, and the number of its first line. */
  function SnippetOf(s: State, c: Command): (string, nat)
    requires !c.Create? && EditOf(s, c).Some?
  {
    var edit := EditOf(s, c).value;
    if c.Insert? then InsertSnippet(edit.read, c.insertLine.value, ExpandTabs(c.newText.value, 0))
    else ReplaceSnippet(Before(edit.read, ExpandTabs(c.oldStr.value, 0)), ExpandTabs(NewStr(c), 0), edit.written)
  }

  lemma SnippetShowsFile(s: State, c: Command)
    requires !c.Create? && EditOf(s, c).Some?
    ensures ShowsFile(SnippetOf(s, c), EditOf(s, c).value.written)
  {
    hide ShowsFile, InsertSnippet, ReplaceSnippet, Inserted;
    var read := Read(s, c.path);
    if c.Insert? {
      InsertShowsFile(read, c.insertLine.value, ExpandTabs(c.newText.value, 0));
    } else {
      ReplaceShowsFile(read, ExpandTabs(c.oldStr.value, 0), ExpandTabs(NewStr(c), 0));
    }
  }

  /** What a successful edit shows are lines of the file it wrote, each under its own number, up to
      where the answer is truncated. */
  lemma EditShowsItsFile(s: State, c: Command, notice: string)
    requires !c.Create? && EditOf(s, c).Some?
    ensures var (text, start) := SnippetOf(s, c);
            ShowsLinesOf(MakeOutput(text, notice, start), SnippetOf(s, c), EditOf(s, c).value.written)
  {
    hide SnippetOf, EditOf, MakeOutput, WholeLine, ShowsLine;
    var snippet, file := SnippetOf(s, c), EditOf(s, c).value.written;
    SnippetShowsFile(s, c);
    EditWritesNoTabs(s, c);
    SnippetHasNoTabs(snippet, file);
    forall i: nat | WholeLine(snippet, i)
      ensures ShowsLine(MakeOutput(snippet.0, notice, snippet.1), snippet.1, i, file)
    {
      NumberedLinesAreReal(snippet, notice, file, i);
    }
  }

  // ----- the tool -----

  datatype Refusal =
    | EndsWithSlash | DoesNotExist | AlreadyExists | IsADirectory | MissingParameter | NoParent
    | NotFound | NotUnique | SameText | BadLine | NoHistory

  datatype Reply =
    | Created | Edited(output: seq<Numbered>) | Undone(output: seq<Numbered>)
    | Refused(reason: Refusal) | Raised

  /** The answer shows lines of the file as it is after the command. */
  ghost predicate AnswersWithFile(before: State, c: Command, output: seq<Numbered>, files: map<Path, Content>) {
    && !c.Create? && EditOf(before, c).Some?
    && c.path in files && files[c.path].Utf8?
    && ShowsLinesOf(output, SnippetOf(before, c), files[c.path].text)
  }

  lemma EditAnswer(before: State, c: Command, notice: string)
    requires !c.Create? && EditOf(before, c).Some?
    ensures var (text, start) := SnippetOf(before, c);
            AnswersWithFile(before, c, MakeOutput(text, notice, start), Step(before, c).files)
  {
    hide SnippetOf, EditOf, MakeOutput, ShowsLinesOf;
    EditShowsItsFile(before, c, notice);
  }

  ghost predicate Nowhere(text: string, sub: string) {
    forall i: nat :: !At(text, i, sub)
  }

  lemma NowhereIsZero(text: string, sub: string)
    requires sub != ""
    ensures Nowhere(text, sub) <==> Count(text, sub) == 0
  {
    CountZero(text, sub);
  }

  class EditFileTool {
    const notice: string
    var files: map<Path, Content>
    var dirs: set<Path>
    var history: map<Path, seq<string>>

    ghost function Now(): State
      reads this
    {
      State(files, dirs, history)
    }

    constructor (notice: string, files: map<Path, Content>, dirs: set<Path>)
      ensures this.notice == notice && Now() == State(files, dirs, map[])
    {
      this.notice, this.files, this.dirs, history := notice, files, dirs, map[];
    }

    method ValidatePath(c: Command) returns (invalid: Option<Refusal>)
      ensures invalid.None? <==>
              if c.Create? then (c.path == "" || c.path[|c.path| - 1] != '/') && c.path !in files && c.path !in dirs
              else IsFile(Now(), c.path)
    {
      if c.Create? && c.path != "" && c.path[|c.path| - 1] == '/' { return Some(EndsWithSlash); }
      var found := c.path in files || c.path in dirs;
      if !found && !c.Create? { return Some(DoesNotExist); }
      if found && c.Create? { return Some(AlreadyExists); }
      if c.path in dirs { return Some(IsADirectory); }
      return None;
    }

    method WriteFile(path: Path, text: string)
      modifies this`files
      ensures files == old(files)[path := Utf8(text)]
    {
      files := files[path := Utf8(text)];
    }

    method PushHistory(path: Path, text: string)
      modifies this`history
      ensures history == old(history)[path := (if path in old(history) then old(history)[path] else []) + [text]]
    {
      history := history[path := (if path in history then history[path] else []) + [text]];
    }

    /** Writes the given text and remembers an empty one, if there is a text and a directory to write to. */
    method CreateFile(c: Command) returns (reply: Reply)
      requires c.Create? && c.path != "" && c.path[|c.path| - 1] != '/' && c.path !in files && c.path !in dirs
      modifies this
      ensures Now() == Step(old(Now()), c)
      ensures reply.Created? || reply.Refused?
      ensures reply.Created? <==> EditOf(old(Now()), c).Some?
      ensures reply.Created? <==> c.fileText.Some? && c.parent in dirs
      ensures reply.Created? ==> files == old(files)[c.path := Utf8(c.fileText.value)]
      ensures !reply.Created? ==> Now() == old(Now())
    {
      if c.fileText.None? { return Refused(MissingParameter); }
      if c.parent !in dirs { return Refused(NoParent); }
      WriteFile(c.path, c.fileText.value);
      PushHistory(c.path, "");
      return Created;
    }

    method ReplaceString(c: Command) returns (reply: Reply)
      requires c.StrReplace? && c.path != "" && IsFile(Now(), c.path)
      modifies this
      ensures Now() == Step(old(Now()), c)
      ensures !reply.Created? && !reply.Undone?
      ensures if EditOf(old(Now()), c).Some? then
                var (snippet, start) := SnippetOf(old(Now()), c);
                reply == Edited(MakeOutput(snippet, notice, start))
              else !reply.Edited? && Now() == old(Now())
      ensures reply == Refused(MissingParameter) <==> c.oldStr.None? || c.oldStr.value == ""
      ensures reply.Raised? <==> c.oldStr.Some? && c.oldStr.value != "" && old(files)[c.path].NotUtf8?
      ensures c.oldStr.Some? && c.oldStr.value != "" && Readable(old(Now()), c.path) ==>
                var read, oldStr := Read(old(Now()), c.path), ExpandTabs(c.oldStr.value, 0);
                && (reply == Refused(NotFound) <==> Nowhere(read, oldStr))
                && (reply == Refused(NotUnique) <==> Count(read, oldStr) > 1)
                && (reply == Refused(SameText) <==> Count(read, oldStr) == 1 && oldStr == ExpandTabs(NewStr(c), 0))
    {
      if c.oldStr.None? || c.oldStr.value == "" { return Refused(MissingParameter); }
      if files[c.path].NotUtf8? { return Raised; }
      var content := Normalized(files[c.path].text);
      var oldStr := ExpandTabs(c.oldStr.value, 0);
      var newStr := ExpandTabs(NewStr(c), 0);
      var occurrences := Count(content, oldStr);
      NowhereIsZero(content, oldStr);
      if occurrences == 0 { return Refused(NotFound); }
      if occurrences > 1 { return Refused(NotUnique); }
      if newStr == oldStr { return Refused(SameText); }
      var written := Replace(content, oldStr, newStr);
      WriteFile(c.path, written);
      PushHistory(c.path, content);
      var (snippet, start) := ReplaceSnippet(Before(content, oldStr), newStr, written);
      return Edited(MakeOutput(snippet, notice, start));
    }

    method InsertLines(c: Command) returns (reply: Reply)
      requires c.Insert? && c.path != "" && IsFile(Now(), c.path)
      modifies this
      ensures Now() == Step(old(Now()), c)
      ensures !reply.Created? && !reply.Undone?
      ensures if EditOf(old(Now()), c).Some? then
                var (snippet, start) := SnippetOf(old(Now()), c);
                reply == Edited(MakeOutput(snippet, notice, start))
              else !reply.Edited? && Now() == old(Now())
      ensures reply == Refused(MissingParameter) <==> c.insertLine.None? || c.newText.None?
      ensures reply.Raised? <==> c.insertLine.Some? && c.newText.Some? && old(files)[c.path].NotUtf8?
      ensures c.insertLine.Some? && c.newText.Some? && Readable(old(Now()), c.path) ==>
                (reply.Edited? <==> 0 <= c.insertLine.value <= |Split(Read(old(Now()), c.path))|)
    {
      if c.insertLine.None? || c.newText.None? { return Refused(MissingParameter); }
      if files[c.path].NotUtf8? { return Raised; }
      var text := Normalized(files[c.path].text);
      var newText := ExpandTabs(c.newText.value, 0);
      var lines := Split(text);
      if c.insertLine.value < 0 || c.insertLine.value > |lines| { return Refused(BadLine); }
      var k: nat := c.insertLine.value;
      WriteFile(c.path, Join(lines[..k] + Split(newText) + lines[k..]));
      PushHistory(c.path, text);
      var (snippet, start) := InsertSnippet(text, k, newText);
      return Edited(MakeOutput(snippet, notice, start));
    }

    method Undo(c: Command) returns (reply: Reply)
      requires c.UndoEdit? && c.path != "" && IsFile(Now(), c.path)
      modifies this
      ensures Now() == Step(old(Now()), c)
      ensures if Undoes(old(Now()), c) then
                var past := History(old(Now()), c.path);
                reply == Undone(MakeOutput(past[|past| - 1], notice, 1))
              else reply == Refused(NoHistory)
    {
      var past := if c.path in history then history[c.path] else [];
      if past == [] { return Refused(NoHistory); }
      var oldText := past[|past| - 1];
      WriteFile(c.path, oldText);
      history := history[c.path := past[..|past| - 1]];
      return Undone(MakeOutput(oldText, notice, 1));
    }

    /** One tool call: the sandbox and the history change exactly as `Step` says, and an edit answers
        with lines of the file it has just written. */
    method Apply(c: Command) returns (reply: Reply)
      modifies this
      ensures Now() == Step(old(Now()), c)
      ensures (reply.Created? || reply.Edited?) <==> EditOf(old(Now()), c).Some?
      ensures reply.Undone? <==> Undoes(old(Now()), c)
      ensures reply.Edited? ==> AnswersWithFile(old(Now()), c, reply.output, files)
    {
      if c.path == "" { return Raised; }
      var invalid := ValidatePath(c);
      if invalid.Some? { return Refused(invalid.value); }
      ghost var before := Now();
      match c {
        case Create(_, _, _) => reply := CreateFile(c);
        case StrReplace(_, _, _) => reply := ReplaceString(c);
        case Insert(_, _, _) => reply := InsertLines(c);
        case UndoEdit(_) => reply := Undo(c);
      }
      if reply.Edited? {
        EditAnswer(before, c, notice);
      }
    }
  }
}
