// Which texts stand for a version, and what its normal form and release tag look like.
module ReleaseSpellings {
  import opened Prelude
  import opened Text
  import opened ReleaseVersion
  import opened ReleaseVersionProofs

  // ----- The texts -----

  // `1.2`, `1.2a3`, `1.2b3`, `1.2rc3`, each perhaps with `.post4`.
  function NormalText(n: Normal): string {
    var base := RenderBase(n.base);
    var s := match n.pre
      case None => base
      case Some((Alpha, k)) => (base + "a") + k
      case Some((Beta, k)) => (base + "b") + k
      case Some((Rc, k)) => (base + "rc") + k;
    if n.post.Some? then (s + ".post") + n.post.value else s
  }

  lemma NormalTextIs(n: Normal)
    ensures NormalText(n) == Render(n)
  {}

  // Base, name and number.
  predicate Is(v: string, base: string, name: string, number: string) {
    v == (base + name) + number
  }

  // `1.2-alpha.3` or `1.2-alpha3`, and so for beta and rc.
  predicate IsLongPre(base: string, pre: Pre, k: string, v: string) {
    match pre
    case Alpha => Is(v, base, "-alpha.", k) || Is(v, base, "-alpha", k)
    case Beta => Is(v, base, "-beta.", k) || Is(v, base, "-beta", k)
    case Rc => Is(v, base, "-rc.", k) || Is(v, base, "-rc", k)
  }

  // `1.2-alpha.3.4` or `1.2-alpha3.4`.
  predicate IsLongHotfix(base: string, k: string, hotfix: string, v: string) {
    Is(v, (base + "-alpha.") + k, ".", hotfix) || Is(v, (base + "-alpha") + k, ".", hotfix)
  }

  predicate IsLongForm(n: Normal, v: string) {
    && n.pre.Some?
    && if n.post.None? then IsLongPre(RenderBase(n.base), n.pre.value.0, n.pre.value.1, v)
       else n.pre.value.0.Alpha? && IsLongHotfix(RenderBase(n.base), n.pre.value.1, n.post.value, v)
  }

  // A text the code also takes for a beta: what its alpha rule leaves is one.
  predicate IsAccident(n: Normal, v: string) {
    && n.post.None? && n.pre.Some? && n.pre.value.0.Beta?
    && IsLongPre(RenderBase(n.base) + "-bet", Alpha, n.pre.value.1, v)
  }

  predicate IsSpelling(n: Normal, v: string) {
    v == NormalText(n) || IsLongForm(n, v) || IsAccident(n, v)
  }

  // ----- Every spelling is replaced by its normal form -----

  // A text that ends in something other than a digit, and a number.
  lemma SplitAtNumber(s: string, t: string, number: string)
    requires t != [] && !IsDigit(t[|t| - 1]) && IsNumber(number)
    ensures Tail((s + t) + number) == number && Head((s + t) + number) == s + t
  {
    LastOf(s, t);
    TailOf(s + t, number);
  }

  lemma UndottedHasNoHotfix(base: string, name: string, number: string)
    requires name != [] && !IsDigit(name[|name| - 1]) && name[|name| - 1] != '.' && IsNumber(number)
    ensures ReplaceHotfix((base + name) + number) == (base + name) + number
  {
    SplitAtNumber(base, name, number);
    LastOf(base, name);
    LastDiffers(base + name, ".");
  }

  // A name that ends in neither the long name nor the long name and a dot.
  lemma NameStays(base: string, name: string, number: string, pre: Pre)
    requires name != [] && !IsDigit(name[|name| - 1]) && IsNumber(number)
    requires !EndsWith(base + name, Marker(pre)) && !EndsWith(base + name, "-" + Name(pre))
    ensures ReplacePre((base + name) + number, pre) == (base + name) + number
  {
    SplitAtNumber(base, name, number);
  }

  lemma UndottedOtherStays(base: string, pre: Pre, other: Pre, number: string)
    requires IsNumber(number) && pre != other
    ensures ReplacePre((base + ("-" + Name(pre))) + number, other) == (base + ("-" + Name(pre))) + number
  {
    var name := "-" + Name(pre);
    LastOf(base, name);
    LastDiffers(base + name, Marker(other));
    if pre.Rc? || other.Rc? {
      LastDiffers(base + name, "-" + Name(other));
    } else {
      CharDiffers(base, name, "-" + Name(other), 1);
    }
    NameStays(base, name, number, other);
  }

  lemma UndottedPreReplaced(base: string, pre: Pre, number: string)
    requires IsNumber(number) && '-' !in (base + Short(pre)) + number
    ensures Replace((base + ("-" + Name(pre))) + number) == (base + Short(pre)) + number
  {
    UndottedHasNoHotfix(base, "-" + Name(pre), number);
    UndottedNameReplaced(base, pre, number);
    if !pre.Alpha? {
      UndottedOtherStays(base, pre, Alpha, number);
    }
    if pre.Rc? {
      UndottedOtherStays(base, pre, Beta, number);
    }
    ReplacePreNeedsDash((base + Short(pre)) + number, Beta);
    ReplacePreNeedsDash((base + Short(pre)) + number, Rc);
  }

  lemma AlphaPostStays(base: string, number: string, hotfix: string)
    requires '-' !in (((base + "a") + number) + ".post") + hotfix
    ensures var s := (((base + "a") + number) + ".post") + hotfix;
            ReplacePre(ReplacePre(ReplacePre(s, Alpha), Beta), Rc) == s
  {
    var s := (((base + "a") + number) + ".post") + hotfix;
    ReplacePreNeedsDash(s, Alpha);
    ReplacePreNeedsDash(s, Beta);
    ReplacePreNeedsDash(s, Rc);
  }

  lemma NamesAre()
    ensures Marker(Alpha) == "-alpha." && Marker(Beta) == "-beta." && Marker(Rc) == "-rc."
    ensures "-" + Name(Alpha) == "-alpha" && "-" + Name(Beta) == "-beta" && "-" + Name(Rc) == "-rc"
  {}

  lemma LongPreMeans(base: string, pre: Pre, k: string, v: string)
    ensures IsLongPre(base, pre, k, v) <==> Is(v, base, Marker(pre), k) || Is(v, base, "-" + Name(pre), k)
  {
    NamesAre();
  }

  lemma LongPreReplaced(base: string, pre: Pre, k: string, v: string)
    requires IsNumber(k) && '-' !in (base + Short(pre)) + k && IsLongPre(base, pre, k, v)
    ensures Replace(v) == (base + Short(pre)) + k
  {
    LongPreMeans(base, pre, k, v);
    if Is(v, base, Marker(pre), k) {
      PreReplaced(base, pre, k);
    } else {
      UndottedPreReplaced(base, pre, k);
    }
  }

  lemma LongHotfixReplaced(base: string, k: string, hotfix: string, v: string)
    requires IsNumber(k) && IsNumber(hotfix) && '-' !in (((base + "a") + k) + ".post") + hotfix
    requires IsLongHotfix(base, k, hotfix, v)
    ensures Replace(v) == (((base + "a") + k) + ".post") + hotfix
  {
    HotfixReplaced(base, k, hotfix);
    UndottedHotfixReplaced(base, k, hotfix);
    AlphaPostStays(base, k, hotfix);
  }

  lemma LongFormReplaced(n: Normal, v: string)
    requires IsNormal(n) && IsLongForm(n, v)
    ensures Replace(v) == NormalText(n)
  {
    var base, pre, k := RenderBase(n.base), n.pre.value.0, n.pre.value.1;
    RenderChars(n);
    NormalTextIs(n);
    if n.post.None? {
      LongPreReplaced(base, pre, k, v);
    } else {
      LongHotfixReplaced(base, k, n.post.value, v);
    }
  }

  lemma AlphaRule(stem: string, k: string, v: string)
    requires IsNumber(k) && IsLongPre(stem, Alpha, k, v)
    ensures ReplacePre(ReplaceHotfix(v), Alpha) == (stem + Short(Alpha)) + k
  {
    LongPreMeans(stem, Alpha, k, v);
    if Is(v, stem, Marker(Alpha), k) {
      NoHotfix(stem, Alpha, k);
      OwnNameReplaced(stem, Alpha, k);
    } else {
      UndottedHasNoHotfix(stem, "-" + Name(Alpha), k);
      UndottedNameReplaced(stem, Alpha, k);
    }
  }

  lemma BetaWithinAlpha(base: string)
    ensures (base + "-bet") + "a" == base + "-beta"
  {
    assert "-bet" + "a" == "-beta";
    Regroup(base, "-bet", "a");
  }

  // The alpha rule leaves a beta behind.
  lemma AlphaLeavesBeta(base: string, k: string, v: string)
    requires IsNumber(k) && IsLongPre(base + "-bet", Alpha, k, v)
    ensures ReplacePre(ReplaceHotfix(v), Alpha) == (base + "-beta") + k
  {
    AlphaRule(base + "-bet", k, v);
    BetaWithinAlpha(base);
  }

  lemma AccidentReplaced(n: Normal, v: string)
    requires IsNormal(n) && IsAccident(n, v)
    ensures Replace(v) == NormalText(n)
  {
    var base, k := RenderBase(n.base), n.pre.value.1;
    RenderChars(n);
    AlphaLeavesBeta(base, k, v);
    NamesAre();
    UndottedNameReplaced(base, Beta, k);
    ReplacePreNeedsDash((base + "b") + k, Rc);
  }

  lemma SpellingReplaced(n: Normal, v: string)
    requires IsNormal(n) && IsSpelling(n, v)
    ensures Replace(v) == NormalText(n)
  {
    NormalTextIs(n);
    RenderChars(n);
    if v == NormalText(n) {
      ReplaceNeedsDash(v);
    } else if IsLongForm(n, v) {
      LongFormReplaced(n, v);
    } else {
      AccidentReplaced(n, v);
    }
  }

  // ----- Nothing else is -----

  // What a replaced pre-release says about the version it ends as.
  lemma EndsAsPre(n: Normal, base: string, pre: Pre, number: string)
    requires IsNormal(n) && IsNumber(number) && Render(n) == (base + Short(pre)) + number
    ensures n.pre == Some((pre, number)) && n.post == None && RenderBase(n.base) == base
  {
    MatchOfRender(n);
    ReadOfPre(base, pre, number);
    BaseOfRead(base);
  }

  lemma EndsAsHotfix(n: Normal, base: string, number: string, hotfix: string)
    requires IsNormal(n) && IsNumber(number) && IsNumber(hotfix)
    requires Render(n) == (((base + "a") + number) + ".post") + hotfix
    ensures n.pre == Some((Alpha, number)) && n.post == Some(hotfix) && RenderBase(n.base) == base
  {
    MatchOfRender(n);
    ReadOfPost((base + "a") + number, hotfix);
    ReadOfPre(base, Alpha, number);
    BaseOfRead(base);
  }

  // A text whose last name ends in a character a rule does not leave was not left by that rule.
  lemma NotLeftByPre(t: string, base: string, name: string, number: string, pre: Pre)
    requires ReplacePre(t, pre) == (base + name) + number && name != [] && IsNumber(number)
    requires !IsDigit(name[|name| - 1]) && name[|name| - 1] != Short(pre)[|Short(pre)| - 1]
    ensures t == (base + name) + number
  {
    SplitAtNumber(base, name, number);
    LastOf(base, name);
    if t != ReplacePre(t, pre) {
      var b, nm, k := ReplacedHadTheName(t, pre);
      LastOf(b, Short(pre));
      SplitAtNumber(b, Short(pre), k);
    }
  }

  lemma NotLeftByHotfix(t: string, base: string, name: string, number: string)
    requires ReplaceHotfix(t) == (base + name) + number && name != [] && IsNumber(number)
    requires !IsDigit(name[|name| - 1]) && name[|name| - 1] != 't'
    ensures t == (base + name) + number
  {
    SplitAtNumber(base, name, number);
    LastOf(base, name);
    if t != ReplaceHotfix(t) {
      var b, nm, k, h := ReplacedHadAHotfix(t);
      var front := (b + "a") + k;
      LastOf(front, ".post");
      SplitAtNumber(front, ".post", h);
    }
  }

  // ----- The rules, undone from the last -----

  lemma LeftByRc(s: string) returns (base: string, name: string, k: string)
    requires ReplacePre(s, Rc) != s
    ensures IsNumber(k) && s == (base + name) + k && ReplacePre(s, Rc) == (base + Short(Rc)) + k
    ensures name == "-rc." || name == "-rc"
  {
    base, name, k := ReplacedHadTheName(s, Rc);
    NamesAre();
  }

  lemma NoOtherRule(v: string, base: string, name: string, k: string)
    requires ReplacePre(ReplacePre(ReplaceHotfix(v), Alpha), Beta) == (base + name) + k && IsNumber(k)
    requires name != [] && (name[|name| - 1] == '.' || name[|name| - 1] == 'c')
    ensures v == (base + name) + k
  {
    var s1 := ReplaceHotfix(v);
    NotLeftByPre(ReplacePre(s1, Alpha), base, name, k, Beta);
    NotLeftByPre(s1, base, name, k, Alpha);
    NotLeftByHotfix(v, base, name, k);
  }

  lemma LeftByBeta(s: string, v: string) returns (base: string, k: string)
    requires ReplacePre(s, Beta) != s && s == ReplacePre(ReplaceHotfix(v), Alpha)
    ensures IsNumber(k) && ReplacePre(s, Beta) == (base + Short(Beta)) + k
    ensures IsLongPre(base, Beta, k, v) || IsLongPre(base + "-bet", Alpha, k, v)
  {
    var name;
    base, name, k := ReplacedHadTheName(s, Beta);
    NamesAre();
    if ReplaceHotfix(v) == s {
      NotLeftByHotfix(v, base, name, k);
    } else {
      AccidentIsTheOnly(base, name, k, v);
    }
  }

  // The alpha rule leaves a beta only where it replaced an alpha after "-bet".
  lemma AccidentIsTheOnly(base: string, name: string, k: string, v: string)
    requires IsNumber(k) && (name == "-beta." || name == "-beta")
    requires ReplacePre(ReplaceHotfix(v), Alpha) == (base + name) + k && ReplaceHotfix(v) != (base + name) + k
    ensures IsLongPre(base + "-bet", Alpha, k, v)
  {
    var b, nm, number := ReplacedHadTheName(ReplaceHotfix(v), Alpha);
    NamesAre();
    SameStem(base, name, k, b, number);
    NotLeftByHotfix(v, b, nm, number);
  }

  lemma SameStem(base: string, name: string, k: string, b: string, number: string)
    requires IsNumber(k) && IsNumber(number) && (name == "-beta." || name == "-beta")
    requires (base + name) + k == (b + "a") + number
    ensures k == number && b == base + "-bet"
  {
    SplitAtNumber(base, name, k);
    SplitAtNumber(b, "a", number);
    LastOf(base, name);
    LastOf(b, "a");
    BetaWithinAlpha(base);
    assert b == (b + "a")[..|b|];
    assert base + "-bet" == ((base + "-bet") + "a")[..|base + "-bet"|];
  }

  lemma LeftByAlpha(s: string, v: string) returns (base: string, k: string)
    requires ReplacePre(s, Alpha) != s && s == ReplaceHotfix(v)
    ensures IsNumber(k) && ReplacePre(s, Alpha) == (base + Short(Alpha)) + k && IsLongPre(base, Alpha, k, v)
  {
    var name;
    base, name, k := ReplacedHadTheName(s, Alpha);
    NamesAre();
    NotLeftByHotfix(v, base, name, k);
  }

  lemma ReplacedIsASpelling(n: Normal, v: string)
    requires IsNormal(n) && Replace(v) == Render(n)
    ensures IsSpelling(n, v)
  {
    NormalTextIs(n);
    var s1 := ReplaceHotfix(v);
    var s2 := ReplacePre(s1, Alpha);
    var s3 := ReplacePre(s2, Beta);
    if ReplacePre(s3, Rc) != s3 {
      var base, name, k := LeftByRc(s3);
      NoOtherRule(v, base, name, k);
      EndsAsPre(n, base, Rc, k);
    } else if s3 != s2 {
      var base, k := LeftByBeta(s2, v);
      EndsAsPre(n, base, Beta, k);
    } else if s2 != s1 {
      var base, k := LeftByAlpha(s1, v);
      EndsAsPre(n, base, Alpha, k);
    } else if s1 != v {
      var base, name, k, hotfix := ReplacedHadAHotfix(v);
      EndsAsHotfix(n, base, k, hotfix);
    }
  }

  // ----- Main results -----

  // Which versions normalise to which texts: exactly those that spell them, once white space
  // around them and a leading "v" or "rust-v" are dropped.
  lemma NormalizeAcceptsExactlyTheSpellings(version: string, n: Normal)
    requires IsNormal(n)
    ensures Normalize(version) == Some(NormalText(n)) <==> IsSpelling(n, DropPrefix(Trim(version, IsPythonSpace)))
  {
    var v := DropPrefix(Trim(version, IsPythonSpace));
    NormalTextIs(n);
    MatchOfRender(n);
    if IsSpelling(n, v) {
      SpellingReplaced(n, v);
    }
    if Normalize(version) == Some(NormalText(n)) {
      ReplacedIsASpelling(n, v);
    }
  }

  predicate IsPrefix(prefix: string) {
    prefix == "" || prefix == "v" || prefix == "rust-v"
  }

  // What is dropped around a text that begins and ends in a digit.
  lemma AroundIsDropped(before: string, prefix: string, v: string, after: string)
    requires AllOf(before, IsPythonSpace) && AllOf(after, IsPythonSpace) && IsPrefix(prefix)
    requires v != [] && IsDigit(v[0]) && IsDigit(v[|v| - 1])
    ensures DropPrefix(Trim(before + ((prefix + v) + after), IsPythonSpace)) == v
  {
    var s := prefix + v;
    LastOf(prefix, v);
    assert s[0] == if prefix == "" then v[0] else if prefix == "v" then 'v' else 'r';
    TrimDropsAround(before, s, after, IsPythonSpace);
    if prefix == "" {
      assert s == v;
      NoPrefixBeforeDigit(v);
    } else if prefix == "v" {
      assert s[0] == 'v' && "rust-v"[0] == 'r' && s[1..] == v;
    } else {
      TagPrefixDrops(v);
    }
  }

  lemma EndsOf(base: string, middle: string, number: string)
    requires base != [] && IsDigit(base[0]) && IsNumber(number)
    ensures var v := (base + middle) + number; v != [] && IsDigit(v[0]) && IsDigit(v[|v| - 1])
  {
    NumberChars(number);
    LastOf(base + middle, number);
  }

  lemma LongPreChars(base: string, pre: Pre, k: string, v: string)
    requires base != [] && IsDigit(base[0]) && IsNumber(k) && IsLongPre(base, pre, k, v)
    ensures v != [] && IsDigit(v[0]) && IsDigit(v[|v| - 1])
  {
    LongPreMeans(base, pre, k, v);
    EndsOf(base, Marker(pre), k);
    EndsOf(base, "-" + Name(pre), k);
  }

  lemma LongHotfixChars(base: string, k: string, hotfix: string, v: string)
    requires base != [] && IsDigit(base[0]) && IsNumber(k) && IsNumber(hotfix) && IsLongHotfix(base, k, hotfix, v)
    ensures v != [] && IsDigit(v[0]) && IsDigit(v[|v| - 1])
  {
    EndsOf(base, "-alpha.", k);
    EndsOf(base, "-alpha", k);
    EndsOf((base + "-alpha.") + k, ".", hotfix);
    EndsOf((base + "-alpha") + k, ".", hotfix);
  }

  lemma SpellingChars(n: Normal, v: string)
    requires IsNormal(n) && IsSpelling(n, v)
    ensures v != [] && IsDigit(v[0]) && IsDigit(v[|v| - 1])
  {
    var base := RenderBase(n.base);
    BaseChars(n.base);
    if v == NormalText(n) {
      NormalTextIs(n);
      RenderChars(n);
    } else if n.post.Some? {
      LongHotfixChars(base, n.pre.value.1, n.post.value, v);
    } else if IsLongForm(n, v) {
      LongPreChars(base, n.pre.value.0, n.pre.value.1, v);
    } else {
      LongPreChars(base + "-bet", Alpha, n.pre.value.1, v);
    }
  }

  // Every spelling of a version, with a prefix and white space or without, has its normal form.
  lemma EverySpellingNormalizes(before: string, prefix: string, v: string, after: string, n: Normal)
    requires AllOf(before, IsPythonSpace) && AllOf(after, IsPythonSpace) && IsPrefix(prefix)
    requires IsNormal(n) && IsSpelling(n, v)
    ensures Normalize(before + ((prefix + v) + after)) == Some(NormalText(n))
  {
    SpellingChars(n, v);
    AroundIsDropped(before, prefix, v, after);
    NormalizeAcceptsExactlyTheSpellings(before + ((prefix + v) + after), n);
  }

  // The tag of a version: its long form where it has one, and its normal form otherwise.
  lemma TagText(version: string, n: Normal)
    requires IsNormal(n) && Normalize(version) == Some(NormalText(n))
    ensures var base := RenderBase(n.base);
            Tag(version) == Some("rust-v" +
              match (n.pre, n.post)
              case (Some((Alpha, k)), None) => (base + "-alpha.") + k
              case (Some((Beta, k)), None) => (base + "-beta.") + k
              case (Some((Rc, k)), None) => (base + "-rc.") + k
              case (Some((Alpha, k)), Some(hotfix)) => (((base + "-alpha.") + k) + ".") + hotfix
              case _ => NormalText(n))
  {
    NormalTextIs(n);
    MatchOfRender(n);
    NamesAre();
  }

  // One text that is no spelling of a version and is accepted all the same.
  lemma AnAccidentIsAccepted()
    ensures Normalize("1-bet-alpha.5") == Some("1b5")
  {
    var n, v := Normal(One("1"), Some((Beta, "5")), None), "1-bet-alpha.5";
    AnAccident(n, v);
    EverySpellingNormalizes("", "", v, "", n);
    assert "" + (("" + v) + "") == v;
  }

  lemma AnAccident(n: Normal, v: string)
    requires n == Normal(One("1"), Some((Beta, "5")), None) && v == "1-bet-alpha.5"
    ensures IsNormal(n) && IsAccident(n, v) && NormalText(n) == "1b5"
  {
    var stem := "1" + "-bet";
    assert stem == "1-bet" && stem + "-alpha." == "1-bet-alpha.";
    assert (stem + "-alpha.") + "5" == v;
    assert ("1" + "b") + "5" == "1b5";
  }

  // ----- Runtime versions -----

  function ThreeNumbers(a: string, b: string, c: string): string {
    (((a + ".") + b) + ".") + c
  }

  function RuntimeNormal(a: string, b: string, c: string, k: Option<string>, hotfix: Option<string>): Normal {
    Normal(Dotted(Dotted(One(a), b), c), if k.Some? then Some((Alpha, k.value)) else None, hotfix)
  }

  // Three numbers, perhaps a numbered alpha, and on that perhaps a post-release.
  predicate AreNumbers(a: string, b: string, c: string, k: Option<string>, hotfix: Option<string>) {
    && IsNumber(a) && IsNumber(b) && IsNumber(c) && (k.Some? ==> IsNumber(k.value))
    && (hotfix.Some? ==> k.Some? && IsNumber(hotfix.value))
  }

  // `1.2.3`, `1.2.3a4` or `1.2.3a4.post5`.
  function RuntimeText(a: string, b: string, c: string, k: Option<string>, hotfix: Option<string>): string {
    var base := ThreeNumbers(a, b, c);
    if k.None? then base
    else if hotfix.None? then (base + "a") + k.value
    else (((base + "a") + k.value) + ".post") + hotfix.value
  }

  // `1.2.3`, `1.2.3-alpha.4` or `1.2.3-alpha.4.5`.
  function RuntimeTag(a: string, b: string, c: string, k: Option<string>, hotfix: Option<string>): string {
    var base := ThreeNumbers(a, b, c);
    "rust-v" + if k.None? then base
               else if hotfix.None? then (base + "-alpha.") + k.value
               else (((base + "-alpha.") + k.value) + ".") + hotfix.value
  }

  lemma RuntimeNormalIs(a: string, b: string, c: string, k: Option<string>, hotfix: Option<string>)
    requires AreNumbers(a, b, c, k, hotfix)
    ensures var n := RuntimeNormal(a, b, c, k, hotfix);
            && IsRuntime(n) && RenderBase(n.base) == ThreeNumbers(a, b, c)
            && NormalText(n) == RuntimeText(a, b, c, k, hotfix)
  {
    var n := RuntimeNormal(a, b, c, k, hotfix);
    assert RenderBase(n.base.front.front) == a && RenderBase(n.base.front) == (a + ".") + b;
  }

  // Every runtime version is resolved to itself and its tag.
  lemma RuntimesAreResolved(a: string, b: string, c: string, k: Option<string>, hotfix: Option<string>)
    requires AreNumbers(a, b, c, k, hotfix)
    ensures var version := RuntimeText(a, b, c, k, hotfix);
            ResolveRuntime(version) == Some((version, RuntimeTag(a, b, c, k, hotfix)))
  {
    var n, version := RuntimeNormal(a, b, c, k, hotfix), RuntimeText(a, b, c, k, hotfix);
    RuntimeNormalIs(a, b, c, k, hotfix);
    NormalTextIs(n);
    RuntimeVersionsRoundTrip(version, n);
    NormalFormsStay(n);
    TagText(version, n);
  }

  lemma RuntimeParts(n: Normal) returns (a: string, b: string, c: string, k: Option<string>, hotfix: Option<string>)
    requires IsRuntime(n)
    ensures AreNumbers(a, b, c, k, hotfix) && n == RuntimeNormal(a, b, c, k, hotfix)
  {
    a, b, c := n.base.front.front.number, n.base.front.number, n.base.number;
    k, hotfix := if n.pre.Some? then Some(n.pre.value.1) else None, n.post;
    assert IsBase(n.base.front) && IsBase(n.base.front.front);
    assert n.base == Dotted(Dotted(One(a), b), c);
    if n.pre.Some? {
      assert n.pre.value == (Alpha, k.value);
    }
  }

  // And no other text is.
  lemma OnlyRuntimesAreResolved(version: string)
    returns (a: string, b: string, c: string, k: Option<string>, hotfix: Option<string>)
    requires ResolveRuntime(version).Some?
    ensures AreNumbers(a, b, c, k, hotfix) && version == RuntimeText(a, b, c, k, hotfix)
  {
    var n := Match(version).value;
    RenderOfMatch(version);
    a, b, c, k, hotfix := RuntimeParts(n);
    RuntimeNormalIs(a, b, c, k, hotfix);
    NormalTextIs(n);
  }
}
