// Versions, their normal forms and their tags determine each other.
module ReleaseVersionProofs {
  import opened Prelude
  import opened Text
  import opened ReleaseVersion

  // ----- Reading from the end -----

  lemma {:induction false} TailIsDigits(s: string)
    ensures s == Head(s) + Tail(s)
    ensures forall c :: c in Tail(s) ==> IsDigit(c)
    ensures Head(s) != [] ==> !IsDigit(Head(s)[|Head(s)| - 1])
  {
    if s != [] && IsDigit(s[|s| - 1]) {
      var front := s[..|s| - 1];
      TailIsDigits(front);
      assert Head(s) == Head(front) && Tail(s) == Tail(front) + [s[|s| - 1]];
    }
  }

  predicate EndsInNoDigit(s: string) {
    s == [] || !IsDigit(s[|s| - 1])
  }

  lemma {:induction false} TailLengthOf(head: string, number: string)
    requires EndsInNoDigit(head) && forall c :: c in number ==> IsDigit(c)
    ensures TailLength(head + number) == |number|
    decreases |number|
  {
    if number == [] {
      assert head + number == head;
    } else {
      var front := number[..|number| - 1];
      assert number[|number| - 1] in number && forall c :: c in front ==> c in number;
      assert (head + number)[..|head + number| - 1] == head + front;
      TailLengthOf(head, front);
    }
  }

  lemma TailOf(head: string, number: string)
    requires EndsInNoDigit(head) && IsNumber(number)
    ensures Tail(head + number) == number && Head(head + number) == head
  {
    TailLengthOf(head, number);
  }

  lemma DropAdded(s: string, suffix: string)
    ensures EndsWith(s + suffix, suffix) && DropSuffix(s + suffix, suffix) == s
  {
  }

  lemma AddDropped(s: string, suffix: string)
    requires EndsWith(s, suffix)
    ensures DropSuffix(s, suffix) + suffix == s
  {
  }

  // A text whose last character differs does not end so.
  lemma LastDiffers(s: string, suffix: string)
    requires suffix != [] && (s == [] || s[|s| - 1] != suffix[|suffix| - 1])
    ensures !EndsWith(s, suffix)
  {
  }

  // ----- Matching and rendering undo each other -----

  lemma LastOf(s: string, t: string)
    requires t != []
    ensures (s + t)[|s + t| - 1] == t[|t| - 1]
  {
  }

  // The text before a base's last number is empty or ends in a dot.
  lemma TailOfBase(b: Base)
    requires IsBase(b)
    ensures Tail(RenderBase(b)) == b.number
    ensures Head(RenderBase(b)) == if b.Dotted? then RenderBase(b.front) + "." else []
  {
    match b {
      case One(number) =>
        assert [] + number == number;
        TailOf([], number);
      case Dotted(front, number) =>
        LastOf(RenderBase(front), ".");
        TailOf(RenderBase(front) + ".", number);
    }
  }

  lemma {:induction false} ReadOfBase(b: Base)
    requires IsBase(b)
    ensures ReadBase(RenderBase(b)) == Some(b)
  {
    TailOfBase(b);
    if b.Dotted? {
      DropAdded(RenderBase(b.front), ".");
      ReadOfBase(b.front);
    }
  }

  lemma {:induction false} BaseOfRead(s: string)
    requires ReadBase(s).Some?
    ensures IsBase(ReadBase(s).value) && RenderBase(ReadBase(s).value) == s
    decreases |s|
  {
    TailIsDigits(s);
    var rest := Head(s);
    if rest != [] {
      AddDropped(rest, ".");
      BaseOfRead(DropSuffix(rest, "."));
    }
  }

  lemma ShortEnds(base: string, pre: Pre)
    ensures var last := (base + Short(pre))[|base + Short(pre)| - 1];
            last == match pre case Alpha => 'a' case Beta => 'b' case Rc => 'c'
  {
    LastOf(base, Short(pre));
  }

  lemma ReadOfNoPre(b: Base)
    requires IsBase(b)
    ensures ReadPre(RenderBase(b)) == (RenderBase(b), None)
    ensures ReadPost(RenderBase(b)) == (RenderBase(b), None)
  {
    var rest := Head(RenderBase(b));
    TailOfBase(b);
    assert rest == [] || rest[|rest| - 1] == '.';
    LastDiffers(rest, ".post");
    LastDiffers(rest, "rc");
    LastDiffers(rest, "a");
    LastDiffers(rest, "b");
  }

  lemma ReadOfPre(base: string, pre: Pre, number: string)
    requires IsNumber(number)
    ensures var s := (base + Short(pre)) + number; ReadPre(s) == (base, Some((pre, number))) && ReadPost(s) == (s, None)
  {
    var rest := base + Short(pre);
    ShortEnds(base, pre);
    TailOf(rest, number);
    DropAdded(base, Short(pre));
    LastDiffers(rest, ".post");
    if !pre.Rc? {
      LastDiffers(rest, "rc");
    }
    if pre.Beta? {
      LastDiffers(rest, "a");
    }
  }

  lemma ReadOfPost(s: string, number: string)
    requires IsNumber(number)
    ensures ReadPost((s + ".post") + number) == (s, Some(number))
  {
    LastOf(s, ".post");
    TailOf(s + ".post", number);
    DropAdded(s, ".post");
  }

  lemma MatchOfRender(n: Normal)
    requires IsNormal(n)
    ensures Match(Render(n)) == Some(n)
  {
    ReadOfBase(n.base);
    ReadOfNoPre(n.base);
    if n.pre.Some? {
      ReadOfPre(RenderBase(n.base), n.pre.value.0, n.pre.value.1);
    }
    if n.post.Some? {
      ReadOfPost(RenderPre(RenderBase(n.base), n.pre), n.post.value);
    }
  }

  lemma PreOfRead(s: string)
    ensures var (base, pre) := ReadPre(s);
            RenderPre(base, pre) == s && (pre.Some? ==> IsNumber(pre.value.1))
  {
    TailIsDigits(s);
    var rest := Head(s);
    if EndsWith(rest, "rc") {
      AddDropped(rest, "rc");
    } else if EndsWith(rest, "a") {
      AddDropped(rest, "a");
    } else if EndsWith(rest, "b") {
      AddDropped(rest, "b");
    }
  }

  lemma PostOfRead(s: string)
    ensures var (unposted, post) := ReadPost(s);
            RenderPost(unposted, post) == s && (post.Some? ==> IsNumber(post.value))
  {
    TailIsDigits(s);
    if EndsWith(Head(s), ".post") {
      AddDropped(Head(s), ".post");
    }
  }

  // A match is a normal form that renders to the text.
  lemma RenderOfMatch(s: string)
    requires Match(s).Some?
    ensures IsNormal(Match(s).value) && Render(Match(s).value) == s
  {
    PostOfRead(s);
    PreOfRead(ReadPost(s).0);
    BaseOfRead(ReadPre(ReadPost(s).0).0);
  }

  // The full match finds the one normal form that renders to the text, if there is one.
  lemma MatchMeans(s: string, n: Normal)
    ensures Match(s) == Some(n) <==> IsNormal(n) && Render(n) == s
  {
    if Match(s) == Some(n) {
      RenderOfMatch(s);
    }
    if IsNormal(n) && Render(n) == s {
      MatchOfRender(n);
    }
  }

  // ----- Texts without a dash are left alone -----

  lemma DashInSuffix(s: string, suffix: string)
    requires EndsWith(s, suffix) && '-' in suffix
    ensures '-' in s
  {
    var i :| 0 <= i < |suffix| && suffix[i] == '-';
    assert s[|s| - |suffix| + i] == suffix[i];
  }

  lemma ReplacePreNeedsDash(s: string, pre: Pre)
    requires '-' !in s
    ensures ReplacePre(s, pre) == s
  {
    TailIsDigits(s);
    var rest := Head(s);
    assert '-' !in rest;
    if EndsWith(rest, "-" + Name(pre) + ".") {
      DashInSuffix(rest, "-" + Name(pre) + ".");
    } else if EndsWith(rest, "-" + Name(pre)) {
      DashInSuffix(rest, "-" + Name(pre));
    }
  }

  lemma ReplaceHotfixNeedsDash(s: string)
    requires '-' !in s
    ensures ReplaceHotfix(s) == s
  {
    TailIsDigits(s);
    var rest := Head(s);
    if EndsWith(rest, ".") {
      var inner := DropSuffix(rest, ".");
      AddDropped(rest, ".");
      TailIsDigits(inner);
      var front := Head(inner);
      assert '-' !in rest && '-' !in inner && '-' !in front;
      if EndsWith(front, "-alpha.") {
        DashInSuffix(front, "-alpha.");
      } else if EndsWith(front, "-alpha") {
        DashInSuffix(front, "-alpha");
      }
    }
  }

  lemma ReplaceNeedsDash(s: string)
    requires '-' !in s
    ensures Replace(s) == s
  {
    ReplaceHotfixNeedsDash(s);
    ReplacePreNeedsDash(s, Alpha);
    ReplacePreNeedsDash(s, Beta);
    ReplacePreNeedsDash(s, Rc);
  }

  lemma NumberChars(s: string)
    requires IsNumber(s)
    ensures IsDigit(s[|s| - 1]) && '-' !in s
  {
    assert s[|s| - 1] in s;
  }

  lemma {:induction false} BaseChars(b: Base)
    requires IsBase(b)
    ensures var s := RenderBase(b); s != [] && IsDigit(s[0]) && IsDigit(s[|s| - 1]) && '-' !in s
  {
    NumberChars(b.number);
    if b.Dotted? {
      BaseChars(b.front);
    } else {
      assert b.number[0] in b.number;
    }
  }

  lemma RenderChars(n: Normal)
    requires IsNormal(n)
    ensures var s := Render(n); s != [] && IsDigit(s[0]) && IsDigit(s[|s| - 1]) && '-' !in s
  {
    BaseChars(n.base);
    if n.pre.Some? {
      NumberChars(n.pre.value.1);
    }
    if n.post.Some? {
      NumberChars(n.post.value);
    }
  }

  // ----- Normalising -----

  lemma TrimOfClean(s: string)
    requires s != [] && !IsPythonSpace(s[0]) && !IsPythonSpace(s[|s| - 1])
    ensures Trim(s, IsPythonSpace) == s
  {
  }

  lemma NoPrefixBeforeDigit(s: string)
    requires s != [] && IsDigit(s[0])
    ensures DropPrefix(s) == s
  {
    assert "rust-v"[0] == 'r' && "v"[0] == 'v';
  }

  lemma TagPrefixDrops(s: string)
    ensures DropPrefix("rust-v" + s) == s
  {
    assert ("rust-v" + s)[..6] == "rust-v" && ("rust-v" + s)[6..] == s;
  }

  lemma NormalFormsStay(n: Normal)
    requires IsNormal(n)
    ensures Normalize(Render(n)) == Some(Render(n))
  {
    var s := Render(n);
    RenderChars(n);
    TrimOfClean(s);
    NoPrefixBeforeDigit(s);
    ReplaceNeedsDash(s);
    MatchOfRender(n);
  }

  // ----- Release names -----

  // The text ends in `t`, which differs from the suffix `k` characters before the end.
  lemma CharDiffers(s: string, t: string, suffix: string, k: nat)
    requires k < |t| && k < |suffix| && t[|t| - 1 - k] != suffix[|suffix| - 1 - k]
    ensures !EndsWith(s + t, suffix)
  {
    var text := s + t;
    assert text[|text| - 1 - k] == t[|t| - 1 - k];
  }

  function Marker(pre: Pre): string {
    "-" + Name(pre) + "."
  }

  lemma TailOfMarked(base: string, pre: Pre, number: string)
    requires IsNumber(number)
    ensures var s := (base + Marker(pre)) + number; Tail(s) == number && Head(s) == base + Marker(pre)
  {
    LastOf(base, Marker(pre));
    TailOf(base + Marker(pre), number);
  }

  lemma OwnNameReplaced(base: string, pre: Pre, number: string)
    requires IsNumber(number)
    ensures ReplacePre((base + Marker(pre)) + number, pre) == (base + Short(pre)) + number
  {
    TailOfMarked(base, pre, number);
    DropAdded(base, Marker(pre));
  }

  lemma UndottedNameReplaced(base: string, pre: Pre, number: string)
    requires IsNumber(number)
    ensures ReplacePre((base + ("-" + Name(pre))) + number, pre) == (base + Short(pre)) + number
  {
    var name := "-" + Name(pre);
    LastOf(base, name);
    TailOf(base + name, number);
    LastDiffers(base + name, Marker(pre));
    DropAdded(base, name);
  }

  // Only a text that ends in the name and a number is replaced, with or without a dot between.
  lemma ReplacedHadTheName(s: string, pre: Pre) returns (base: string, name: string, number: string)
    requires ReplacePre(s, pre) != s
    ensures (name == Marker(pre) || name == "-" + Name(pre)) && IsNumber(number)
    ensures s == (base + name) + number && ReplacePre(s, pre) == (base + Short(pre)) + number
  {
    TailIsDigits(s);
    var rest := Head(s);
    name := if EndsWith(rest, Marker(pre)) then Marker(pre) else "-" + Name(pre);
    base, number := DropSuffix(rest, name), Tail(s);
    AddDropped(rest, name);
  }

  lemma OtherNameStays(base: string, pre: Pre, other: Pre, number: string)
    requires IsNumber(number) && pre != other
    ensures var s := (base + Marker(pre)) + number; ReplacePre(s, other) == s
  {
    TailOfMarked(base, pre, number);
    CharDiffers(base, Marker(pre), "-" + Name(other), 0);
    var k := if pre.Rc? || other.Rc? then 1 else 2;
    CharDiffers(base, Marker(pre), Marker(other), k);
  }

  lemma NoHotfix(base: string, pre: Pre, number: string)
    requires IsNumber(number)
    ensures var s := (base + Marker(pre)) + number; ReplaceHotfix(s) == s
  {
    TailOfMarked(base, pre, number);
    var name := "-" + Name(pre);
    assert base + Marker(pre) == (base + name) + ".";
    DropAdded(base + name, ".");
    LastOf(base, name);
    TailLengthOf(base + name, []);
    assert (base + name) + [] == base + name;
  }

  lemma HotfixReplaced(base: string, number: string, hotfix: string)
    requires IsNumber(number) && IsNumber(hotfix)
    ensures ReplaceHotfix((((base + "-alpha.") + number) + ".") + hotfix) == (((base + "a") + number) + ".post") + hotfix
  {
    var inner := (base + "-alpha.") + number;
    LastOf(inner, ".");
    TailOf(inner + ".", hotfix);
    DropAdded(inner, ".");
    LastOf(base, "-alpha.");
    TailOf(base + "-alpha.", number);
    DropAdded(base, "-alpha.");
  }

  lemma UndottedHotfixReplaced(base: string, number: string, hotfix: string)
    requires IsNumber(number) && IsNumber(hotfix)
    ensures ReplaceHotfix((((base + "-alpha") + number) + ".") + hotfix) == (((base + "a") + number) + ".post") + hotfix
  {
    var inner := (base + "-alpha") + number;
    LastOf(inner, ".");
    TailOf(inner + ".", hotfix);
    DropAdded(inner, ".");
    LastOf(base, "-alpha");
    TailOf(base + "-alpha", number);
    LastDiffers(base + "-alpha", "-alpha.");
    DropAdded(base, "-alpha");
  }

  // Only a text that ends in the alpha name and two numbers is replaced.
  lemma ReplacedHadAHotfix(s: string) returns (base: string, name: string, number: string, hotfix: string)
    requires ReplaceHotfix(s) != s
    ensures (name == "-alpha." || name == "-alpha") && IsNumber(number) && IsNumber(hotfix)
    ensures s == (((base + name) + number) + ".") + hotfix
    ensures ReplaceHotfix(s) == (((base + "a") + number) + ".post") + hotfix
  {
    TailIsDigits(s);
    var rest := Head(s);
    AddDropped(rest, ".");
    var inner := DropSuffix(rest, ".");
    TailIsDigits(inner);
    var front := Head(inner);
    name := if EndsWith(front, "-alpha.") then "-alpha." else "-alpha";
    base, number, hotfix := DropSuffix(front, name), Tail(inner), Tail(s);
    AddDropped(front, name);
  }

  // A release name of the plain pre-release kind.
  lemma PreReplaced(base: string, pre: Pre, number: string)
    requires IsNumber(number) && '-' !in (base + Short(pre)) + number
    ensures Replace((base + Marker(pre)) + number) == (base + Short(pre)) + number
  {
    NoHotfix(base, pre, number);
    OwnNameReplaced(base, pre, number);
    if !pre.Alpha? {
      OtherNameStays(base, pre, Alpha, number);
    }
    if pre.Rc? {
      OtherNameStays(base, pre, Beta, number);
    }
    ReplacePreNeedsDash((base + Short(pre)) + number, Beta);
    ReplacePreNeedsDash((base + Short(pre)) + number, Rc);
  }

  lemma ReleaseReplaced(n: Normal)
    requires IsNormal(n)
    ensures Replace(Release(n)) == Render(n)
  {
    var s, base := Render(n), RenderBase(n.base);
    RenderChars(n);
    if n.pre.Some? && n.pre.value.0.Alpha? && n.post.Some? {
      HotfixReplaced(base, n.pre.value.1, n.post.value);
      ReplacePreNeedsDash(s, Alpha);
      ReplacePreNeedsDash(s, Beta);
      ReplacePreNeedsDash(s, Rc);
    } else if n.pre.Some? && n.post.None? {
      PreReplaced(base, n.pre.value.0, n.pre.value.1);
    } else {
      ReplaceNeedsDash(s);
    }
  }

  lemma ReleaseChars(n: Normal)
    requires IsNormal(n)
    ensures Release(n) != [] && IsDigit(Release(n)[|Release(n)| - 1])
  {
    RenderChars(n);
    if n.pre.Some? {
      NumberChars(n.pre.value.1);
    }
    if n.post.Some? {
      NumberChars(n.post.value);
    }
  }

  lemma TagOfNormal(n: Normal)
    requires IsNormal(n)
    ensures Normalize("rust-v" + Release(n)) == Some(Render(n))
  {
    var tag := "rust-v" + Release(n);
    ReleaseChars(n);
    LastOf("rust-v", Release(n));
    assert tag[0] == 'r';
    TrimOfClean(tag);
    TagPrefixDrops(Release(n));
    ReleaseReplaced(n);
    MatchOfRender(n);
  }

  // ----- Main results -----

  lemma AcceptedIsNormal(version: string) returns (n: Normal)
    requires Normalize(version).Some?
    ensures IsNormal(n) && Normalize(version) == Some(Render(n)) && Tag(version) == Some("rust-v" + Release(n))
  {
    var s := Normalize(version).value;
    RenderOfMatch(s);
    n := Match(s).value;
  }

  // Normalising the tag of an accepted version gives the version's own normal form.
  lemma TagNormalizesBack(version: string)
    requires Normalize(version).Some?
    ensures Tag(version).Some? && Normalize(Tag(version).value) == Normalize(version)
  {
    var n := AcceptedIsNormal(version);
    TagOfNormal(n);
  }

  lemma NormalizingTwiceChangesNothing(version: string)
    requires Normalize(version).Some?
    ensures Normalize(Normalize(version).value) == Normalize(version)
  {
    var n := AcceptedIsNormal(version);
    NormalFormsStay(n);
  }

  // Two accepted versions share a tag exactly when they share a normal form.
  lemma SameTagIffSameNormalForm(v: string, w: string)
    requires Normalize(v).Some? && Normalize(w).Some?
    ensures Tag(v) == Tag(w) <==> Normalize(v) == Normalize(w)
  {
    TagNormalizesBack(v);
    TagNormalizesBack(w);
  }

  // A version is resolved exactly when it is a runtime version, and then its tag gives it back.
  lemma RuntimeVersionsRoundTrip(version: string, n: Normal)
    ensures IsRuntime(n) && Render(n) == version ==>
              ResolveRuntime(version) == Some((version, "rust-v" + Release(n)))
              && Normalize("rust-v" + Release(n)) == Some(version)
    ensures ResolveRuntime(version).Some? ==>
              exists m :: IsRuntime(m) && Render(m) == version
  {
    if IsRuntime(n) && Render(n) == version {
      MatchOfRender(n);
      NormalFormsStay(n);
      TagOfNormal(n);
    }
    if ResolveRuntime(version).Some? {
      RenderOfMatch(version);
      assert IsRuntime(Match(version).value);
    }
  }
}
