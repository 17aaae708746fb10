/**
  The `append_smk_include` task: add `include: "<name>"` to
  `workflow/rules/includes.smk` unless an equal line is already there.

  The file system is an input: whether the target exists and its text.
  The result says what the task does with the file.
 */
module AppendSmkInclude {
  import opened Text

  const UsageMessage: string := "Usage: append_smk_include.py <smk_file_name>"
  const Target: string := "workflow/rules/includes.smk"
  const NotFoundMessage: string := "ERROR: " + Target + " not found"

  datatype Outcome =
    | Exit(message: string)  // `sys.exit(message)`: status 1, the file is not written
    | Unchanged              // the include is already present: the file is not written
    | Written(text: string)  // the file is rewritten with `text`

  /** The process exit status of each outcome (`sys.exit` with a string exits with 1). */
  function ExitStatus(o: Outcome): (status: int)
    ensures status == 0 <==> !o.Exit?
  {
    if o.Exit? then 1 else 0
  }

  /** The line the task appends, terminator included. */
  function IncludeLine(name: string): string {
    "include: \"" + name + "\"\n"
  }

  /** Some existing line equals the new line once both are stripped. */
  predicate AlreadyIncluded(lines: seq<string>, newLine: string) {
    exists i | 0 <= i < |lines| :: Strip(lines[i]) == Strip(newLine)
  }

  /** The lines left once the run of trailing whitespace-only lines is removed. */
  function DropTrailingBlank(lines: seq<string>): (r: seq<string>)
    ensures r <= lines
    ensures r == [] || !IsBlank(r[|r| - 1])
    ensures forall i | |r| <= i < |lines| :: IsBlank(lines[i])
  {
    if lines != [] && IsBlank(lines[|lines| - 1]) then DropTrailingBlank(lines[..|lines| - 1])
    else lines
  }

  /** The text the task writes when it appends `name` to a file holding `text`. */
  function Appended(text: string, name: string): string {
    Concat(DropTrailingBlank(SplitLinesKeep(text))) + IncludeLine(name)
  }

  /**
    Pops the trailing blank lines off `lines`: what remains is the kept
    lines, and the popped ones are collected last line first.
   */
  method PopTrailingBlank(original: seq<string>) returns (lines: seq<string>, trailing: seq<string>)
    ensures lines == DropTrailingBlank(original)
    ensures |lines| + |trailing| == |original|
    ensures forall j | 0 <= j < |trailing| :: trailing[j] == original[|original| - 1 - j]
  {
    lines, trailing := original, [];
    while lines != [] && Strip(lines[|lines| - 1]) == []
      invariant lines <= original
      invariant DropTrailingBlank(lines) == DropTrailingBlank(original)
      invariant |lines| + |trailing| == |original|
      invariant forall j | 0 <= j < |trailing| :: trailing[j] == original[|original| - 1 - j]
    {
      assert lines[|lines| - 1] == original[|original| - 1 - |trailing|];
      trailing := trailing + [lines[|lines| - 1]];
      lines := lines[..|lines| - 1];
    }
  }

  /**
    Runs the task with command line `argv` (program name first) against a
    target that exists or not and currently holds `text`.
   */
  method RunAppendTask(argv: seq<string>, targetExists: bool, text: string) returns (o: Outcome)
    ensures |argv| != 2 ==> o == Exit(UsageMessage)
    ensures |argv| == 2 && !targetExists ==> o == Exit(NotFoundMessage)
    ensures |argv| == 2 && targetExists ==>
              (o == Unchanged <==> AlreadyIncluded(SplitLinesKeep(text), IncludeLine(argv[1])))
    ensures |argv| == 2 && targetExists && !AlreadyIncluded(SplitLinesKeep(text), IncludeLine(argv[1])) ==>
              o == Written(Appended(text, argv[1]))
  {
    if |argv| != 2 {
      return Exit(UsageMessage);
    }
    var smkFile := argv[1];
    if !targetExists {
      return Exit(NotFoundMessage);
    }
    var newLine := IncludeLine(smkFile);
    var lines := SplitLinesKeep(text);
    if AlreadyIncluded(lines, newLine) {
      return Unchanged;
    }
    var trailing;
    lines, trailing := PopTrailingBlank(lines);
    lines := lines + [newLine];
    ConcatAppend(lines[..|lines| - 1], newLine);
    assert lines[..|lines| - 1] + [newLine] == lines;
    o := Written(Concat(lines));
  }

  /** The kept lines end on a line boundary: nothing is kept, or the last kept line is terminated. */
  predicate OnBoundary(kept: seq<string>) {
    kept == [] || Terminated(kept[|kept| - 1])
  }

  /** An unterminated line holds no '\n' at all. */
  lemma {:induction false} UnterminatedLine(l: string)
    requires IsLine(l) && !Terminated(l)
    ensures '\n' !in l
  {
    assert l == l[..|l| - 1] + [l[|l| - 1]];
  }

  lemma {:induction false} IncludeLineIsLine(name: string)
    requires '\n' !in name
    ensures IsLine(IncludeLine(name)) && Terminated(IncludeLine(name))
  {
    var l := IncludeLine(name);
    assert l[..|l| - 1] == "include: \"" + name + "\"";
  }

  /** The kept lines cut the text they concatenate to into lines. */
  lemma {:induction false} KeptIsPartition(text: string)
    ensures var kept := DropTrailingBlank(SplitLinesKeep(text));
            IsLinePartition(Concat(kept), kept)
  {
    var ls := SplitLinesKeep(text);
    var kept := DropTrailingBlank(ls);
    assert forall i | 0 <= i < |kept| :: kept[i] == ls[i];
  }

  /**
    The lines of the written text: the kept lines in order followed by the
    include line, which is glued onto the last kept line when that line has
    no terminator. In both cases the include is the end of the last line, so
    no blank line follows it.
   */
  lemma {:induction false} AppendedLines(text: string, name: string)
    requires '\n' !in name
    ensures var kept := DropTrailingBlank(SplitLinesKeep(text));
            SplitLinesKeep(Appended(text, name))
            == if OnBoundary(kept) then kept + [IncludeLine(name)]
               else kept[..|kept| - 1] + [kept[|kept| - 1] + IncludeLine(name)]
  {
    var kept := DropTrailingBlank(SplitLinesKeep(text));
    var l := IncludeLine(name);
    IncludeLineIsLine(name);
    KeptIsPartition(text);
    if OnBoundary(kept) {
      PartitionAppendLine(Concat(kept), kept, l);
    } else {
      PartitionGlue(Concat(kept), kept, l);
      LinePartitionUnique(Appended(text, name), kept[..|kept| - 1] + [kept[|kept| - 1] + l]);
    }
  }

  /**
    When the kept lines end on a line boundary, a second run with the same
    name finds the include and leaves the file unchanged.
   */
  lemma {:induction false} SecondRunFindsInclude(text: string, name: string)
    requires '\n' !in name
    requires OnBoundary(DropTrailingBlank(SplitLinesKeep(text)))
    ensures AlreadyIncluded(SplitLinesKeep(Appended(text, name)), IncludeLine(name))
  {
    AppendedLines(text, name);
    var ls := SplitLinesKeep(Appended(text, name));
    assert ls[|ls| - 1] == IncludeLine(name);
  }

  /**
    A file made of one unterminated line `x` that starts and ends with a
    non-whitespace character: unless `x` is the include itself, the first
    run writes, gluing the include onto `x`; the second run does not
    recognise it and appends the include once more.
   */
  lemma {:induction false} GluedIncludeIsAppendedAgain(x: string, name: string)
    requires x != [] && '\n' !in x && IsStripped(x)
    requires '\n' !in name
    ensures x != "include: \"" + name + "\"" ==> !AlreadyIncluded(SplitLinesKeep(x), IncludeLine(name))
    ensures var once := Appended(x, name);
            && once == x + IncludeLine(name)
            && !AlreadyIncluded(SplitLinesKeep(once), IncludeLine(name))
            && Appended(once, name) == once + IncludeLine(name)
  {
    if x != "include: \"" + name + "\"" {
      FirstRunWrites(x, name);
    }
    var l := IncludeLine(name);
    var once := x + l;
    OneLineFile(x);
    assert Appended(x, name) == once;
    GluedLine(x, name);
    var ls := SplitLinesKeep(once);
    assert Appended(once, name) == once + l;
    assert !AlreadyIncluded(ls, l) by {
      forall i | 0 <= i < |ls| ensures Strip(ls[i]) != Strip(l) {
        assert ls[i] == once;
      }
    }
  }

  /** A one-line file other than the include itself does not hold the include. */
  lemma {:induction false} FirstRunWrites(x: string, name: string)
    requires x != [] && '\n' !in x && IsStripped(x)
    requires '\n' !in name
    requires x != "include: \"" + name + "\""
    ensures !AlreadyIncluded(SplitLinesKeep(x), IncludeLine(name))
  {
    var body := "include: \"" + name + "\"";
    var l := IncludeLine(name);
    assert l == body + "\n";
    StrippedBodies(x, body);
    StripTerminated(body);
    assert Strip(l) == body;
    StripStripped(x);
    OneLineFile(x);
    var ls := SplitLinesKeep(x);
    forall i | 0 <= i < |ls| ensures Strip(ls[i]) != Strip(l) {
      assert ls[i] == x;
    }
  }

  /** The include glued onto a stripped line makes one line, which does not strip to the include. */
  lemma {:induction false} GluedLine(x: string, name: string)
    requires x != [] && '\n' !in x && IsStripped(x)
    requires '\n' !in name
    ensures var once := x + IncludeLine(name);
            && SplitLinesKeep(once) == [once]
            && DropTrailingBlank(SplitLinesKeep(once)) == [once]
            && Concat([once]) == once
            && Strip(once) != Strip(IncludeLine(name))
  {
    var l := IncludeLine(name);
    var once := x + l;
    var body := "include: \"" + name + "\"";
    assert l == body + "\n";
    assert once == (x + body) + "\n";
    assert once[0] == x[0];
    OneLineFile(once);
    StrippedBodies(x, body);
    StripTerminated(x + body);
    StripTerminated(body);
  }

  /** A file of one non-blank line keeps exactly that line. */
  lemma {:induction false} OneLineFile(t: string)
    requires t != [] && '\n' !in t[..|t| - 1] && !IsBlank(t)
    ensures SplitLinesKeep(t) == [t]
    ensures DropTrailingBlank(SplitLinesKeep(t)) == [t]
    ensures Concat([t]) == t
  {
    assert Concat([t]) == t;
    LinePartitionUnique(t, [t]);
  }

  lemma {:induction false} StrippedBodies(x: string, body: string)
    requires x != [] && IsStripped(x)
    requires body != [] && body[0] == 'i' && body[|body| - 1] == '"'
    ensures IsStripped(x + body) && IsStripped(body) && |x + body| > |body|
  {
    assert (x + body)[0] == x[0];
  }

  /**
    The evidently intended behaviour: the include goes on a line of its own,
    a terminator being added to an unterminated last line first.
   */
  function AppendedOnOwnLine(text: string, name: string): string {
    var kept := DropTrailingBlank(SplitLinesKeep(text));
    Concat(kept) + (if OnBoundary(kept) then "" else "\n") + IncludeLine(name)
  }

  /** The lines of the corrected text when the kept lines end on a line boundary. */
  lemma {:induction false} OwnLineOnBoundary(text: string, name: string)
    requires '\n' !in name
    requires OnBoundary(DropTrailingBlank(SplitLinesKeep(text)))
    ensures SplitLinesKeep(AppendedOnOwnLine(text, name))
            == DropTrailingBlank(SplitLinesKeep(text)) + [IncludeLine(name)]
  {
    var kept := DropTrailingBlank(SplitLinesKeep(text));
    var l := IncludeLine(name);
    OwnLineOnBoundaryText(text, name);
    IncludeLineIsLine(name);
    KeptIsPartition(text);
    PartitionAppendLine(Concat(kept), kept, l);
  }

  /** On a line boundary nothing is inserted before the include line. */
  lemma {:induction false} OwnLineOnBoundaryText(text: string, name: string)
    requires OnBoundary(DropTrailingBlank(SplitLinesKeep(text)))
    ensures AppendedOnOwnLine(text, name) == Concat(DropTrailingBlank(SplitLinesKeep(text))) + IncludeLine(name)
  {
    var prefix := Concat(DropTrailingBlank(SplitLinesKeep(text)));
    assert prefix + "" == prefix;
  }

  /** The lines of the corrected text when the last kept line lacks its terminator: it gets one. */
  lemma {:induction false} OwnLineTerminated(text: string, name: string)
    requires '\n' !in name
    requires !OnBoundary(DropTrailingBlank(SplitLinesKeep(text)))
    ensures var kept := DropTrailingBlank(SplitLinesKeep(text));
            SplitLinesKeep(AppendedOnOwnLine(text, name))
            == kept[..|kept| - 1] + [kept[|kept| - 1] + "\n"] + [IncludeLine(name)]
  {
    var kept := DropTrailingBlank(SplitLinesKeep(text));
    var l := IncludeLine(name);
    var n := |kept|;
    var fixed := kept[..n - 1] + [kept[n - 1] + "\n"];
    IncludeLineIsLine(name);
    KeptIsPartition(text);
    assert IsLine("\n");
    PartitionGlue(Concat(kept), kept, "\n");
    assert AppendedOnOwnLine(text, name) == (Concat(kept) + "\n") + l;
    PartitionAppendLine(Concat(kept) + "\n", fixed, l);
  }

  /**
    With the include on its own line, the written file ends with the include
    line and a second run always leaves the file unchanged.
   */
  lemma {:induction false} OwnLineAppendIsIdempotent(text: string, name: string)
    requires '\n' !in name
    ensures var ls := SplitLinesKeep(AppendedOnOwnLine(text, name));
            |ls| > 0 && ls[|ls| - 1] == IncludeLine(name)
    ensures AlreadyIncluded(SplitLinesKeep(AppendedOnOwnLine(text, name)), IncludeLine(name))
  {
    var ls := SplitLinesKeep(AppendedOnOwnLine(text, name));
    if OnBoundary(DropTrailingBlank(SplitLinesKeep(text))) {
      OwnLineOnBoundary(text, name);
    } else {
      OwnLineTerminated(text, name);
    }
    assert ls[|ls| - 1] == IncludeLine(name);
  }
}
