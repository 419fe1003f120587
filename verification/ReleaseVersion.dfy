// How Codex versions are brought to PEP 440's form and turned into release tags.
module ReleaseVersion {
  import opened Prelude
  import opened Text

  predicate IsDigit(c: char) {
    '0' <= c <= '9'
  }

  predicate IsNumber(s: string) {
    s != [] && forall c :: c in s ==> IsDigit(c)
  }

  // ----- Reading a text from its end -----

  // How many digits the text ends in.
  function TailLength(s: string): (n: nat)
    ensures n <= |s|
  {
    if s != [] && IsDigit(s[|s| - 1]) then 1 + TailLength(s[..|s| - 1]) else 0
  }

  function Tail(s: string): string {
    s[|s| - TailLength(s)..]
  }

  function Head(s: string): string {
    s[..|s| - TailLength(s)]
  }

  function DropSuffix(s: string, suffix: string): string
    requires EndsWith(s, suffix)
  {
    s[..|s| - |suffix|]
  }

  // ----- The normal form: numbers, pre-release, post-release -----

  // Numbers joined by dots.
  datatype Base = One(number: string) | Dotted(front: Base, number: string)

  datatype Pre = Alpha | Beta | Rc

  datatype Normal = Normal(base: Base, pre: Option<(Pre, string)>, post: Option<string>)

  function Short(pre: Pre): string {
    match pre case Alpha => "a" case Beta => "b" case Rc => "rc"
  }

  function Name(pre: Pre): string {
    match pre case Alpha => "alpha" case Beta => "beta" case Rc => "rc"
  }

  predicate IsBase(b: Base) {
    IsNumber(b.number) && (b.Dotted? ==> IsBase(b.front))
  }

  predicate IsNormal(n: Normal) {
    && IsBase(n.base)
    && (n.pre.Some? ==> IsNumber(n.pre.value.1))
    && (n.post.Some? ==> IsNumber(n.post.value))
  }

  function RenderBase(b: Base): string {
    match b
    case One(number) => number
    case Dotted(front, number) => (RenderBase(front) + ".") + number
  }

  function RenderPre(base: string, pre: Option<(Pre, string)>): string {
    if pre.Some? then (base + Short(pre.value.0)) + pre.value.1 else base
  }

  function RenderPost(s: string, post: Option<string>): string {
    if post.Some? then (s + ".post") + post.value else s
  }

  function Render(n: Normal): string {
    RenderPost(RenderPre(RenderBase(n.base), n.pre), n.post)
  }

  // ----- The code -----

  function ReadBase(s: string): Option<Base>
    decreases |s|
  {
    var number, rest := Tail(s), Head(s);
    if number == [] then None
    else if rest == [] then Some(One(number))
    else if !EndsWith(rest, ".") then None
    else match ReadBase(DropSuffix(rest, "."))
      case None => None
      case Some(front) => Some(Dotted(front, number))
  }

  // The text before the pre-release, and that.
  function ReadPre(s: string): (string, Option<(Pre, string)>) {
    var number, rest := Tail(s), Head(s);
    if number == [] then (s, None)
    else if EndsWith(rest, "rc") then (DropSuffix(rest, "rc"), Some((Rc, number)))
    else if EndsWith(rest, "a") then (DropSuffix(rest, "a"), Some((Alpha, number)))
    else if EndsWith(rest, "b") then (DropSuffix(rest, "b"), Some((Beta, number)))
    else (s, None)
  }

  // The text before the post-release, and that.
  function ReadPost(s: string): (string, Option<string>) {
    var number, rest := Tail(s), Head(s);
    if number != [] && EndsWith(rest, ".post") then (DropSuffix(rest, ".post"), Some(number))
    else (s, None)
  }

  // The groups of the full match, if there is one.
  function Match(s: string): Option<Normal> {
    var (unposted, post) := ReadPost(s);
    var (base, pre) := ReadPre(unposted);
    match ReadBase(base)
    case None => None
    case Some(b) => Some(Normal(b, pre, post))
  }

  // `-alpha.N.M` or `-alphaN.M` at the end.
  function ReplaceHotfix(s: string): string {
    var hotfix, rest := Tail(s), Head(s);
    if hotfix == [] || !EndsWith(rest, ".") then s
    else
      var inner := DropSuffix(rest, ".");
      var number, front := Tail(inner), Head(inner);
      if number == [] then s
      else if EndsWith(front, "-alpha.") then ((DropSuffix(front, "-alpha.") + "a") + number + ".post") + hotfix
      else if EndsWith(front, "-alpha") then ((DropSuffix(front, "-alpha") + "a") + number + ".post") + hotfix
      else s
  }

  // `-alpha.N` or `-alphaN` at the end, and so for the other names.
  function ReplacePre(s: string, pre: Pre): string {
    var number, rest := Tail(s), Head(s);
    if number == [] then s
    else if EndsWith(rest, "-" + Name(pre) + ".") then (DropSuffix(rest, "-" + Name(pre) + ".") + Short(pre)) + number
    else if EndsWith(rest, "-" + Name(pre)) then (DropSuffix(rest, "-" + Name(pre)) + Short(pre)) + number
    else s
  }

  function DropPrefix(s: string): string {
    if "rust-v" <= s then s[6..]
    else if "v" <= s then s[1..]
    else s
  }

  function Replace(s: string): string {
    ReplacePre(ReplacePre(ReplacePre(ReplaceHotfix(s), Alpha), Beta), Rc)
  }

  // None where the code raises.
  function Normalize(version: string): Option<string> {
    var s := Replace(DropPrefix(Trim(version, IsPythonSpace)));
    if Match(s).Some? then Some(s) else None
  }

  function Release(n: Normal): string {
    match n.pre
    case Some((pre, number)) =>
      var base := RenderBase(n.base);
      if pre.Alpha? && n.post.Some? then (((base + "-alpha.") + number) + ".") + n.post.value
      else if n.post.None? then (base + ("-" + Name(pre) + ".")) + number
      else Render(n)
    case None => Render(n)
  }

  function ReleaseVersion(version: string): Option<string> {
    match Normalize(version)
    case None => None
    case Some(s) => Some(Release(Match(s).value))
  }

  function Tag(version: string): Option<string> {
    match ReleaseVersion(version)
    case None => None
    case Some(release) => Some("rust-v" + release)
  }

  // Three numbers, then perhaps a numbered alpha with perhaps a post-release.
  predicate IsRuntime(n: Normal) {
    && IsNormal(n)
    && n.base.Dotted? && n.base.front.Dotted? && n.base.front.front.One?
    && (n.pre.Some? ==> n.pre.value.0.Alpha?)
    && (n.post.Some? ==> n.pre.Some?)
  }

  function ResolveRuntime(version: string): Option<(string, string)> {
    if Match(version).Some? && IsRuntime(Match(version).value) && Tag(version).Some?
    then Some((version, Tag(version).value))
    else None
  }
}
