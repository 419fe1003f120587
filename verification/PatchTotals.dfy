// What scanning a git patch yields, stated on the patch's lines: how many are added and deleted,
// and which of them are fingerprinted under which path.
module PatchTotals {
  import opened Prelude
  import opened Text
  import opened AcceptedLines
  import opened AcceptedLinesProofs

  predicate AllSpace(s: string) {
    AllOf(s, IsUnicodeSpace)
  }

  // ----- Which added lines count -----

  // More than three bytes of UTF-8.
  predicate MoreThanThreeBytes(s: string) {
    || |s| > 3
    || (|s| == 3 && (s[0] >= '\U{0080}' || s[1] >= '\U{0080}' || s[2] >= '\U{0080}'))
    || (|s| == 2 && (s[0] >= '\U{0800}' || s[1] >= '\U{0800}' || (s[0] >= '\U{0080}' && s[1] >= '\U{0080}')))
    || (|s| == 1 && s[0] >= '\U{10000}')
  }

  lemma {:induction false} AtLeastOneByteEach(s: string)
    ensures Utf8Length(s) >= |s|
  {
    if s != [] {
      AtLeastOneByteEach(s[..|s| - 1]);
    }
  }

  function Width(c: char): nat {
    if c < '\U{0080}' then 1 else if c < '\U{0800}' then 2 else if c < '\U{10000}' then 3 else 4
  }

  lemma Utf8Grows(s: string, c: char)
    ensures Utf8Length(s + [c]) == Utf8Length(s) + Width(c)
  {
    assert (s + [c])[..|s|] == s;
  }

  lemma Utf8One(a: char)
    ensures Utf8Length([a]) == Width(a)
  {
    Utf8Grows([], a);
    assert [] + [a] == [a];
  }

  lemma Utf8Two(a: char, b: char)
    ensures Utf8Length([a, b]) == Width(a) + Width(b)
  {
    Utf8One(a);
    Utf8Grows([a], b);
    assert [a] + [b] == [a, b];
  }

  lemma Utf8Three(a: char, b: char, c: char)
    ensures Utf8Length([a, b, c]) == Width(a) + Width(b) + Width(c)
  {
    Utf8Two(a, b);
    Utf8Grows([a, b], c);
    assert [a, b] + [c] == [a, b, c];
  }

  lemma BytesOfShortText(s: string)
    ensures Utf8Length(s) > 3 <==> MoreThanThreeBytes(s)
  {
    AtLeastOneByteEach(s);
    if |s| == 1 {
      Utf8One(s[0]);
      assert s == [s[0]];
    } else if |s| == 2 {
      Utf8Two(s[0], s[1]);
      assert s == [s[0], s[1]];
    } else if |s| == 3 {
      Utf8Three(s[0], s[1], s[2]);
      assert s == [s[0], s[1], s[2]];
    }
  }

  // A text worth a fingerprint.
  predicate IsEffective(env: Env, text: string) {
    MoreThanThreeBytes(text) && exists c :: c in text && (env.isAlphanumeric(c) || c == '_')
  }

  // A line is known by its words with one space between them.
  lemma NormalizeLineMeans(env: Env, line: string)
    ensures var text := Join(Words(line));
            NormalizeLine(env, line) == if IsEffective(env, text) then Some(text) else None
  {
    BytesOfShortText(Join(Words(line)));
  }

  // ----- Words -----

  lemma {:induction false} WordsBeforeGap(s: string, gap: string)
    requires AllSpace(gap)
    ensures Words(s + gap) == Words(s)
    decreases |gap|
  {
    if gap == [] {
      assert s + gap == s;
    } else {
      var front, last := gap[..|gap| - 1], gap[|gap| - 1];
      assert last in gap && forall c :: c in front ==> c in gap;
      assert (s + gap)[..|s + gap| - 1] == s + front && (s + gap)[|s + gap| - 1] == last;
      WordsBeforeGap(s, front);
    }
  }

  // Words with a gap after each.
  function Spaced(ws: seq<string>, gaps: seq<string>): string
    requires |ws| == |gaps|
  {
    if ws == [] then [] else (Spaced(ws[..|ws| - 1], gaps[..|ws| - 1]) + ws[|ws| - 1]) + gaps[|ws| - 1]
  }

  lemma OneMoreWord(line: string, w: string, gap: string)
    requires (line == [] || IsUnicodeSpace(line[|line| - 1])) && IsWord(w) && AllSpace(gap)
    ensures Words((line + w) + gap) == Words(line) + [w]
  {
    WordsAfterSpace(line, w);
    WordsBeforeGap(line + w, gap);
  }

  predicate AreSpaced(ws: seq<string>, gaps: seq<string>) {
    && |ws| == |gaps|
    && (forall i :: 0 <= i < |ws| ==> IsWord(ws[i]) && AllSpace(gaps[i]))
    && (forall i :: 0 <= i < |ws| - 1 ==> gaps[i] != [])
  }

  // However its words are spaced, a line has exactly those words.
  lemma {:induction false} WordsOfSpaced(indent: string, ws: seq<string>, gaps: seq<string>)
    requires AreSpaced(ws, gaps) && AllSpace(indent)
    ensures Words(indent + Spaced(ws, gaps)) == ws
    decreases |ws|
  {
    if ws == [] {
      WordsBeforeGap([], indent);
      assert [] + indent == indent + Spaced(ws, gaps);
    } else {
      var n := |ws| - 1;
      FrontIsSpaced(ws, gaps);
      WordsOfSpaced(indent, ws[..n], gaps[..n]);
      LastWord(indent, ws, gaps);
    }
  }

  lemma LastWord(indent: string, ws: seq<string>, gaps: seq<string>)
    requires AreSpaced(ws, gaps) && AllSpace(indent) && ws != []
    requires Words(indent + Spaced(ws[..|ws| - 1], gaps[..|ws| - 1])) == ws[..|ws| - 1]
    ensures Words(indent + Spaced(ws, gaps)) == ws
  {
    var line, w, gap := LastParts(indent, ws, gaps);
    OneMoreWord(line, w, gap);
  }

  lemma LastParts(indent: string, ws: seq<string>, gaps: seq<string>) returns (line: string, w: string, gap: string)
    requires AreSpaced(ws, gaps) && AllSpace(indent) && ws != []
    ensures line == indent + Spaced(ws[..|ws| - 1], gaps[..|ws| - 1])
    ensures indent + Spaced(ws, gaps) == (line + w) + gap
    ensures (line == [] || IsUnicodeSpace(line[|line| - 1])) && IsWord(w) && AllSpace(gap)
    ensures ws == ws[..|ws| - 1] + [w]
  {
    var n := |ws| - 1;
    var before := Spaced(ws[..n], gaps[..n]);
    line, w, gap := indent + before, ws[n], gaps[n];
    FrontIsSpaced(ws, gaps);
    SpacedEndsInSpace(indent, ws[..n], gaps[..n]);
    Regroup(indent, before + w, gap);
    Regroup(indent, before, w);
  }

  lemma FrontIsSpaced(ws: seq<string>, gaps: seq<string>)
    requires AreSpaced(ws, gaps) && ws != []
    ensures var n := |ws| - 1; AreSpaced(ws[..n], gaps[..n]) && (n > 0 ==> gaps[..n][n - 1] != [])
  {}

  lemma SpacedEndsInSpace(indent: string, ws: seq<string>, gaps: seq<string>)
    requires AreSpaced(ws, gaps) && AllSpace(indent) && (ws != [] ==> gaps[|ws| - 1] != [])
    ensures var line := indent + Spaced(ws, gaps); line == [] || IsUnicodeSpace(line[|line| - 1])
  {
    var line := indent + Spaced(ws, gaps);
    if ws == [] {
      assert line == indent;
      if line != [] {
        assert line[|line| - 1] in indent;
      }
    } else {
      var gap := gaps[|ws| - 1];
      assert line[|line| - 1] == gap[|gap| - 1] && gap[|gap| - 1] in gap;
    }
  }

  // ----- Paths -----

  // A name without white space at its ends gives its own text, less a leading "a/" or "b/",
  // whatever white space stands around it; the name of a removed file gives none.
  lemma NameGivesPath(before: string, name: string, after: string)
    requires AllSpace(before) && AllSpace(after)
    requires name != [] && !IsUnicodeSpace(name[0]) && !IsUnicodeSpace(name[|name| - 1])
    ensures NormalizePath(before + (name + after)) ==
            if name == "/dev/null" then None
            else if |name| >= 2 && (name[0] == 'a' || name[0] == 'b') && name[1] == '/' then Some(name[2..])
            else Some(name)
  {
    TrimDropsAround(before, name, after, IsUnicodeSpace);
    assert "b/" <= name <==> |name| >= 2 && name[0] == 'b' && name[1] == '/';
    assert "a/" <= name <==> |name| >= 2 && name[0] == 'a' && name[1] == '/';
  }

  // ----- Totals -----

  function HunkBodies(hunks: seq<Hunk>): seq<Body> {
    if hunks == [] then [] else hunks[0].bodies + HunkBodies(hunks[1..])
  }

  function ChangeBodies(change: Change): seq<Body> {
    match change case NoText => [] case Text(_, _, hunks) => HunkBodies(hunks)
  }

  // Every body line of a patch, in order.
  function PatchBodies(files: seq<FilePatch>): seq<Body> {
    if files == [] then [] else ChangeBodies(files[0].change) + PatchBodies(files[1..])
  }

  function AddedIn(bodies: seq<Body>): nat {
    if bodies == [] then 0 else (if bodies[0].Added? then 1 else 0) + AddedIn(bodies[1..])
  }

  function DeletedIn(bodies: seq<Body>): nat {
    if bodies == [] then 0 else (if bodies[0].Deleted? then 1 else 0) + DeletedIn(bodies[1..])
  }

  lemma {:induction false} AddedJoin(a: seq<Body>, b: seq<Body>)
    ensures AddedIn(a + b) == AddedIn(a) + AddedIn(b)
  {
    if a == [] {
      assert a + b == b;
    } else {
      assert (a + b)[1..] == a[1..] + b;
      AddedJoin(a[1..], b);
    }
  }

  lemma {:induction false} DeletedJoin(a: seq<Body>, b: seq<Body>)
    ensures DeletedIn(a + b) == DeletedIn(a) + DeletedIn(b)
  {
    if a == [] {
      assert a + b == b;
    } else {
      assert (a + b)[1..] == a[1..] + b;
      DeletedJoin(a[1..], b);
    }
  }

  // One fingerprint for each effective added line, of the file's path and of the line's words.
  function Print(env: Env, path: string, body: Body): seq<Fingerprint> {
    if body.Added? && IsEffective(env, Join(Words(body.text)))
    then [Fingerprint(env.hash("path", path), env.hash("line", Join(Words(body.text))))] else []
  }

  function Prints(env: Env, path: string, bodies: seq<Body>): seq<Fingerprint> {
    if bodies == [] then [] else Print(env, path, bodies[0]) + Prints(env, path, bodies[1..])
  }

  // File after file; a removed file and one without textual changes have none.
  function PatchPrints(env: Env, files: seq<FilePatch>, news: seq<NewFile>): seq<Fingerprint>
    requires |files| == |news|
  {
    if files == [] then []
    else
      (if news[0].Kept? then Prints(env, news[0].path, ChangeBodies(files[0].change)) else [])
      + PatchPrints(env, files[1..], news[1..])
  }

  lemma PrintsStep(env: Env, path: string, body: Body, bodies: seq<Body>)
    ensures Prints(env, path, [body] + bodies) == Print(env, path, body) + Prints(env, path, bodies)
  {
    assert ([body] + bodies)[1..] == bodies;
  }

  lemma {:induction false} PrintsJoin(env: Env, path: string, a: seq<Body>, b: seq<Body>)
    ensures Prints(env, path, a + b) == Prints(env, path, a) + Prints(env, path, b)
    decreases |a|
  {
    if a == [] {
      assert a + b == b;
    } else {
      var first, rest := a[0], a[1..];
      assert a + b == [first] + (rest + b);
      PrintsStep(env, path, first, rest + b);
      PrintsJoin(env, path, rest, b);
      Regroup(Print(env, path, first), Prints(env, path, rest), Prints(env, path, b));
    }
  }

  lemma {:induction false} BodiesAdd(env: Env, path: Option<string>, bodies: seq<Body>)
    ensures BodiesSummary(env, path, bodies).added == AddedIn(bodies)
    decreases |bodies|
  {
    if bodies != [] {
      BodiesAdd(env, path, bodies[1..]);
    }
  }

  lemma {:induction false} BodiesDelete(env: Env, path: Option<string>, bodies: seq<Body>)
    ensures BodiesSummary(env, path, bodies).deleted == DeletedIn(bodies)
    decreases |bodies|
  {
    if bodies != [] {
      BodiesDelete(env, path, bodies[1..]);
    }
  }

  lemma {:induction false} BodiesPrint(env: Env, path: Option<string>, bodies: seq<Body>)
    ensures BodiesSummary(env, path, bodies).fingerprints == if path.Some? then Prints(env, path.value, bodies) else []
    decreases |bodies|
  {
    if bodies != [] {
      BodiesPrint(env, path, bodies[1..]);
      if bodies[0].Added? {
        NormalizeLineMeans(env, bodies[0].text);
      }
    }
  }

  lemma {:induction false} HunksAdd(env: Env, path: Option<string>, hunks: seq<Hunk>)
    ensures HunksSummary(env, path, hunks).added == AddedIn(HunkBodies(hunks))
    decreases |hunks|
  {
    if hunks != [] {
      BodiesAdd(env, path, hunks[0].bodies);
      HunksAdd(env, path, hunks[1..]);
      AddedJoin(hunks[0].bodies, HunkBodies(hunks[1..]));
    }
  }

  lemma {:induction false} HunksDelete(env: Env, path: Option<string>, hunks: seq<Hunk>)
    ensures HunksSummary(env, path, hunks).deleted == DeletedIn(HunkBodies(hunks))
    decreases |hunks|
  {
    if hunks != [] {
      BodiesDelete(env, path, hunks[0].bodies);
      HunksDelete(env, path, hunks[1..]);
      DeletedJoin(hunks[0].bodies, HunkBodies(hunks[1..]));
    }
  }

  lemma {:induction false} HunksPrint(env: Env, path: Option<string>, hunks: seq<Hunk>)
    ensures HunksSummary(env, path, hunks).fingerprints == if path.Some? then Prints(env, path.value, HunkBodies(hunks)) else []
    decreases |hunks|
  {
    if hunks != [] {
      BodiesPrint(env, path, hunks[0].bodies);
      HunksPrint(env, path, hunks[1..]);
      if path.Some? {
        PrintsJoin(env, path.value, hunks[0].bodies, HunkBodies(hunks[1..]));
      }
    }
  }

  function OwnSummary(env: Env, file: FilePatch, name: NewFile): Summary {
    match file.change
    case NoText => NOTHING
    case Text(_, _, hunks) => HunksSummary(env, PathOf(name), hunks)
  }

  lemma FileTotal(env: Env, file: FilePatch, name: NewFile)
    ensures var s, bodies := OwnSummary(env, file, name), ChangeBodies(file.change);
            && s.added == AddedIn(bodies) && s.deleted == DeletedIn(bodies)
            && s.fingerprints == if name.Kept? then Prints(env, name.path, bodies) else []
  {
    if file.change.Text? {
      HunksAdd(env, PathOf(name), file.change.hunks);
      HunksDelete(env, PathOf(name), file.change.hunks);
      HunksPrint(env, PathOf(name), file.change.hunks);
    }
  }

  lemma SummaryStep(env: Env, files: seq<FilePatch>, news: seq<NewFile>)
    requires |files| == |news| > 0
    ensures SummaryUnder(env, files, news) == Plus(OwnSummary(env, files[0], news[0]), SummaryUnder(env, files[1..], news[1..]))
  {}

  lemma {:induction false} PatchAdds(env: Env, files: seq<FilePatch>, news: seq<NewFile>)
    requires |files| == |news|
    ensures SummaryUnder(env, files, news).added == AddedIn(PatchBodies(files))
    decreases |files|
  {
    if files != [] {
      SummaryStep(env, files, news);
      FileTotal(env, files[0], news[0]);
      PatchAdds(env, files[1..], news[1..]);
      AddedJoin(ChangeBodies(files[0].change), PatchBodies(files[1..]));
    }
  }

  lemma {:induction false} PatchDeletes(env: Env, files: seq<FilePatch>, news: seq<NewFile>)
    requires |files| == |news|
    ensures SummaryUnder(env, files, news).deleted == DeletedIn(PatchBodies(files))
    decreases |files|
  {
    if files != [] {
      SummaryStep(env, files, news);
      FileTotal(env, files[0], news[0]);
      PatchDeletes(env, files[1..], news[1..]);
      DeletedJoin(ChangeBodies(files[0].change), PatchBodies(files[1..]));
    }
  }

  lemma {:induction false} PatchFingerprints(env: Env, files: seq<FilePatch>, news: seq<NewFile>)
    requires |files| == |news|
    ensures SummaryUnder(env, files, news).fingerprints == PatchPrints(env, files, news)
    decreases |files|
  {
    if files != [] {
      SummaryStep(env, files, news);
      FileTotal(env, files[0], news[0]);
      PatchFingerprints(env, files[1..], news[1..]);
    }
  }

  // Scanning the text of a git patch counts each added and each deleted line once and gives, file
  // by file and in order, one fingerprint for each effective added line, under the file's path.
  lemma ScanCountsThePatch(env: Env, files: seq<FilePatch>, news: seq<NewFile>)
    requires IsGitPatch(files) && NamesFiles(files, news)
    ensures ScanDiff(env, RenderText(RenderFiles(files))) ==
            Summary(AddedIn(PatchBodies(files)), DeletedIn(PatchBodies(files)), PatchPrints(env, files, news))
  {
    ScanFindsTheFiles(env, files, news);
    PatchAdds(env, files, news);
    PatchDeletes(env, files, news);
    PatchFingerprints(env, files, news);
  }
}
