/** Logical paths and selectors (internal/kernel/capability/compiler.go).

    Paths are strings; their meaning is the list of '/'-separated components.
    The results below connect the two: which strings CleanLogicalPath accepts,
    and which component lists a selector reaches. */
module Paths {
  import opened Text

  function Components(value: string): seq<string> { Split(value, '/') }

  /** One pass of path.Clean over the remaining components: "" and "." vanish,
      ".." removes the previous component when there is one to remove. */
  function CleanComponents(stack: seq<string>, rest: seq<string>, rooted: bool): seq<string>
    decreases |rest|
  {
    if rest == [] then stack
    else if rest[0] == "" || rest[0] == "." then CleanComponents(stack, rest[1..], rooted)
    else if rest[0] == ".." then
      if stack != [] && stack[|stack| - 1] != ".." then
        CleanComponents(stack[..|stack| - 1], rest[1..], rooted)
      else if rooted then CleanComponents(stack, rest[1..], rooted)
      else CleanComponents(stack + [".."], rest[1..], rooted)
    else CleanComponents(stack + [rest[0]], rest[1..], rooted)
  }

  predicate IsAbs(value: string) { HasPrefix(value, "/") }

  /** path.Clean */
  function Clean(value: string): string {
    var stack := CleanComponents([], Components(value), IsAbs(value));
    if IsAbs(value) then "/" + Join(stack, '/')
    else if stack == [] then "."
    else Join(stack, '/')
  }

  /** CleanLogicalPath: accepts a path only when it is already clean, relative
      and inside the tree. */
  function CleanLogicalPath(value: string): Option<string> {
    if value == "" || '\\' in value || '\0' in value || IsAbs(value) then None
    else
      var clean := Clean(value);
      if clean == "." || clean == ".." || HasPrefix(clean, "../") || clean != value then None
      else Some(clean)
  }

  predicate Ordinary(component: string) {
    component != "" && component != "." && component != ".."
  }

  predicate OrdinaryPath(value: string) { forall c <- Components(value) :: Ordinary(c) }

  /** What a clean logical path is, without mentioning how cleaning works. */
  predicate IsCleanPath(value: string) {
    '\\' !in value && '\0' !in value && OrdinaryPath(value)
  }

  lemma {:induction false} CleanOrdinary(stack: seq<string>, rest: seq<string>, rooted: bool)
    requires forall c <- rest :: Ordinary(c)
    ensures CleanComponents(stack, rest, rooted) == stack + rest
    decreases |rest|
  {
    if rest != [] {
      assert Ordinary(rest[0]);
      CleanOrdinary(stack + [rest[0]], rest[1..], rooted);
      assert stack + [rest[0]] + rest[1..] == stack + rest;
    }
  }

  /** The shape of the component stack: no "" or ".", and ".." only in front. */
  predicate StackShape(stack: seq<string>) {
    && (forall c <- stack :: c != "" && c != "." && '/' !in c)
    && (forall i :: 0 < i < |stack| && stack[i] == ".." ==> stack[i - 1] == "..")
  }

  lemma {:induction false} CleanShape(stack: seq<string>, rest: seq<string>, rooted: bool)
    requires StackShape(stack) && forall c <- rest :: '/' !in c
    ensures StackShape(CleanComponents(stack, rest, rooted))
    decreases |rest|
  {
    if rest != [] {
      var head, tail := rest[0], rest[1..];
      assert '/' !in head && forall c <- tail :: '/' !in c;
      if head == "" || head == "." {
        CleanShape(stack, tail, rooted);
      } else if head == ".." && stack != [] && stack[|stack| - 1] != ".." {
        var shorter := stack[..|stack| - 1];
        assert StackShape(shorter) by {
          assert forall c <- shorter :: c in stack;
          assert forall i :: 0 <= i < |shorter| ==> shorter[i] == stack[i];
        }
        CleanShape(shorter, tail, rooted);
      } else if head == ".." && rooted {
        CleanShape(stack, tail, rooted);
      } else {
        var longer := stack + [head];
        assert StackShape(longer) by {
          assert forall i :: 0 <= i < |stack| ==> longer[i] == stack[i];
        }
        CleanShape(longer, tail, rooted);
      }
    }
  }

  lemma {:induction false} LeadingDotDot(stack: seq<string>, i: nat)
    requires StackShape(stack) && i < |stack| && stack[i] == ".."
    ensures stack[0] == ".."
  {
    if i > 0 { LeadingDotDot(stack, i - 1); }
  }

  lemma DotDotFirst(value: string)
    requires Components(value)[0] == ".."
    ensures value == ".." || HasPrefix(value, "../")
  {
    var parts := Components(value);
    JoinSplit(value, '/');
    if |parts| > 1 {
      assert value == ".." + ['/'] + Join(parts[1..], '/');
    }
  }

  lemma DotDotPrefix(value: string)
    requires HasPrefix(value, "../")
    ensures Components(value)[0] == ".."
  {
    assert value == ".." + ['/'] + value[3..];
    SplitConcat("..", '/', value[3..]);
    SplitWhole("..", '/');
  }

  lemma OrdinaryIsRelative(value: string)
    requires OrdinaryPath(value)
    ensures !IsAbs(value) && value != ""
  {
    assert Ordinary(Components(value)[0]);
  }

  lemma CleanPathIsFixed(value: string)
    requires OrdinaryPath(value)
    ensures !IsAbs(value) && Clean(value) == value
    ensures value != "" && value != "." && value != ".." && !HasPrefix(value, "../")
  {
    hide Split, Join, CleanComponents;
    var parts := Components(value);
    JoinSplit(value, '/');
    assert Ordinary(parts[0]);
    OrdinaryIsRelative(value);
    CleanOrdinary([], parts, IsAbs(value));
    assert [] + parts == parts;
    SplitWhole(".", '/');
    SplitWhole("..", '/');
    if HasPrefix(value, "../") { DotDotPrefix(value); }
  }

  lemma FixedPathIsClean(value: string)
    requires !IsAbs(value) && Clean(value) == value && value != "."
    requires value != ".." && !HasPrefix(value, "../")
    ensures OrdinaryPath(value)
  {
    var parts := Components(value);
    var stack := CleanComponents([], parts, false);
    CleanShape([], parts, false);
    SplitJoin(stack, '/');
    assert stack == parts;
    if i: nat :| i < |parts| && !Ordinary(parts[i]) {
      assert stack[i] in stack;
      LeadingDotDot(stack, i);
      DotDotFirst(value);
    }
  }

  /** CleanLogicalPath accepts exactly the paths all of whose components are
      ordinary names, and returns them unchanged. */
  lemma CleanLogicalPathMeaning(value: string)
    ensures CleanLogicalPath(value) == if IsCleanPath(value) then Some(value) else None
  {
    if IsCleanPath(value) {
      CleanPathIsFixed(value);
    } else if CleanLogicalPath(value).Some? {
      FixedPathIsClean(value);
    }
  }

  /** The text of a character class, up to its closing bracket. */
  function ClassEnd(pattern: string, i: nat): (end: nat)
    requires i <= |pattern|
    ensures i <= end <= |pattern|
    decreases |pattern| - i
  {
    if i == |pattern| || pattern[i] == ']' then i
    else if pattern[i] == '\\' && i + 1 < |pattern| then ClassEnd(pattern, i + 2)
    else ClassEnd(pattern, i + 1)
  }

  /** One character of a class, escaped or not, and what follows it; '-' has to be
      escaped. */
  function ClassChar(s: string): (r: Option<(char, string)>)
    ensures r.Some? ==> |r.value.1| < |s|
  {
    if s == "" || s[0] == '-' then None
    else if s[0] != '\\' then Some((s[0], s[1..]))
    else if |s| == 1 then None else Some((s[1], s[2..]))
  }

  /** A class is a sequence of single characters and lo-hi pairs. */
  function Ranges(s: string): Option<seq<(char, char)>> {
    if s == "" then Some([])
    else
      match ClassChar(s)
      case None => None
      case Some((lo, rest)) =>
        if rest == "" || rest[0] != '-' then Preceded((lo, lo), Ranges(rest))
        else
          match ClassChar(rest[1..])
          case None => None
          case Some((hi, more)) => Preceded((lo, hi), Ranges(more))
  }

  function Preceded(range: (char, char), ranges: Option<seq<(char, char)>>): Option<seq<(char, char)>> {
    match ranges case None => None case Some(more) => Some([range] + more)
  }

  predicate InRanges(ranges: seq<(char, char)>, c: char) {
    exists i :: 0 <= i < |ranges| && ranges[i].0 <= c <= ranges[i].1
  }

  predicate ClassMatches(body: string, c: char) {
    var negated := HasPrefix(body, "^");
    var ranges := Ranges(if negated then body[1..] else body);
    ranges.Some? && ranges.value != [] && InRanges(ranges.value, c) != negated
  }

  /** The matching relation documented for path.Match: '*' is any run of
      non-slash characters, '?' one of them, '[...]' one character of the class,
      an escaped character that character, and every other character itself. */
  predicate GlobMatch(pattern: string, name: string)
    decreases |pattern| + |name|
  {
    if pattern == "" then name == ""
    else if pattern[0] == '*' then
      GlobMatch(pattern[1..], name)
      || (name != "" && name[0] != '/' && GlobMatch(pattern, name[1..]))
    else if pattern[0] == '?' then
      name != "" && name[0] != '/' && GlobMatch(pattern[1..], name[1..])
    else if pattern[0] == '[' then
      var end := ClassEnd(pattern, 1);
      1 < end < |pattern| && name != "" && ClassMatches(pattern[1..end], name[0])
      && GlobMatch(pattern[end + 1..], name[1..])
    else if pattern[0] == '\\' then
      |pattern| > 1 && name != "" && name[0] == pattern[1] && GlobMatch(pattern[2..], name[1..])
    else
      name != "" && name[0] == pattern[0] && GlobMatch(pattern[1..], name[1..])
  }

  // ---- what patterns mean ------------------------------------------------------------

  /** Patterns without classes and escapes match piece by piece. */
  predicate Plain(pattern: string) { '[' !in pattern && '\\' !in pattern }

  predicate SplitsAt(p: string, q: string, name: string, k: nat) {
    k <= |name| && GlobMatch(p, name[..k]) && GlobMatch(q, name[k..])
  }

  lemma {:induction false} GlobConcat(p: string, q: string, name: string)
    requires Plain(p)
    ensures GlobMatch(p + q, name) <==> exists k: nat :: SplitsAt(p, q, name, k)
    decreases |p| + |name|
  {
    if p == "" {
      assert p + q == q;
      assert name[0..] == name;
      assert GlobMatch(q, name) ==> SplitsAt(p, q, name, 0);
    } else {
      var rest := p[1..];
      assert (p + q)[1..] == rest + q && (p + q)[0] == p[0];
      if p[0] == '*' { GlobConcat(rest, q, name); }
      if name != "" {
        GlobConcat(if p[0] == '*' then p else rest, q, name[1..]);
      }
      GlobTogether(p, q, name);
    }
  }

  /** The step of GlobConcat in both directions. */
  lemma GlobTogether(p: string, q: string, name: string)
    requires Plain(p) && p != ""
    requires p[0] == '*' ==> (GlobMatch(p[1..] + q, name) <==> exists k: nat :: SplitsAt(p[1..], q, name, k))
    requires name != "" ==>
               var next := if p[0] == '*' then p else p[1..];
               GlobMatch(next + q, name[1..]) <==> exists k: nat :: SplitsAt(next, q, name[1..], k)
    ensures GlobMatch(p + q, name) <==> exists k: nat :: SplitsAt(p, q, name, k)
  {
    var rest := p[1..];
    var next := if p[0] == '*' then p else rest;
    assert (p + q)[1..] == rest + q && (p + q)[0] == p[0];
    if GlobMatch(p + q, name) {
      if p[0] == '*' && GlobMatch(rest + q, name) {
        var k: nat :| SplitsAt(rest, q, name, k);
        assert SplitsAt(p, q, name, k);
      } else {
        var k: nat :| SplitsAt(next, q, name[1..], k);
        assert name[..k + 1][1..] == name[1..][..k] && name[k + 1..] == name[1..][k..];
        assert SplitsAt(p, q, name, k + 1);
      }
    }
    if k: nat :| SplitsAt(p, q, name, k) {
      if p[0] == '*' && GlobMatch(rest, name[..k]) {
        assert SplitsAt(rest, q, name, k);
      } else {
        assert name[..k][1..] == name[1..][..k - 1] && name[k..] == name[1..][k - 1..];
        assert SplitsAt(next, q, name[1..], k - 1);
      }
    }
  }

  lemma {:induction false} GlobLiteral(pattern: string, name: string)
    requires Literal(pattern)
    ensures GlobMatch(pattern, name) <==> name == pattern
  {
    if pattern != "" && name != "" {
      GlobLiteral(pattern[1..], name[1..]);
      assert pattern == [pattern[0]] + pattern[1..] && name == [name[0]] + name[1..];
    }
  }

  lemma {:induction false} GlobStar(name: string)
    ensures GlobMatch("*", name) <==> '/' !in name
  {
    assert "*"[1..] == "";
    if name != "" {
      GlobStar(name[1..]);
      assert name == [name[0]] + name[1..];
    }
  }

  lemma GlobQuestion(name: string)
    ensures GlobMatch("?", name) <==> |name| == 1 && name != "/"
  {
    assert "?"[1..] == "";
  }

  /** One star between literal texts stands for any text without a slash. */
  lemma GlobOneStar(a: string, b: string, name: string)
    requires Literal(a) && Literal(b)
    ensures GlobMatch(a + ("*" + b), name) <==> exists middle: string :: name == a + (middle + b) && '/' !in middle
  {
    hide GlobMatch, Literal;
    if GlobMatch(a + ("*" + b), name) {
      PlainLiteral(a);
      GlobConcat(a, "*" + b, name);
      var k: nat :| SplitsAt(a, "*" + b, name, k);
      GlobLiteral(a, name[..k]);
      GlobConcat("*", b, name[k..]);
      var j: nat :| SplitsAt("*", b, name[k..], j);
      GlobStar(name[k..][..j]);
      GlobLiteral(b, name[k..][j..]);
      assert name == name[..k] + (name[k..][..j] + name[k..][j..]);
    }
    if middle: string :| name == a + (middle + b) && '/' !in middle {
      GlobLiteral(b, b);
      GlobLiteral(a, a);
      GlobStar(middle);
      assert (middle + b)[..|middle|] == middle && (middle + b)[|middle|..] == b;
      assert SplitsAt("*", b, middle + b, |middle|);
      GlobConcat("*", b, middle + b);
      assert name[..|a|] == a && name[|a|..] == middle + b;
      assert SplitsAt(a, "*" + b, name, |a|);
      PlainLiteral(a);
      GlobConcat(a, "*" + b, name);
    }
  }

  lemma PlainLiteral(s: string)
    requires Literal(s)
    ensures Plain(s)
  {
  }

  lemma OneRange(lo: char, hi: char)
    requires lo !in "-\\" && hi !in "-\\"
    ensures Ranges([lo, '-', hi]) == Some([(lo, hi)])
  {
    var range := [lo, '-', hi];
    assert range[1..] == ['-', hi] && range[1..][1..] == [hi] && [hi][1..] == "";
    assert ClassChar(range) == Some((lo, ['-', hi])) && ClassChar([hi]) == Some((hi, ""));
    assert Ranges("") == Some([]) && [(lo, hi)] + [] == [(lo, hi)];
  }

  /** A class of one range, and its negation. */
  lemma RangeMatches(lo: char, hi: char, c: char)
    requires lo !in "-^\\" && hi !in "-\\"
    ensures ClassMatches([lo, '-', hi], c) <==> lo <= c <= hi
    ensures ClassMatches(['^', lo, '-', hi], c) <==> !(lo <= c <= hi)
  {
    hide Ranges;
    OneRange(lo, hi);
    var range := [lo, '-', hi];
    assert ['^', lo, '-', hi][1..] == range && ['^', lo, '-', hi][..1] == "^" && range[..1][0] != '^';
    assert InRanges([(lo, hi)], c) <==> lo <= c <= hi by { assert [(lo, hi)][0] == (lo, hi); }
  }

  /** A class stands for one character that is in it. */
  lemma GlobClass(body: string, rest: string, name: string)
    requires body != "" && ']' !in body && '\\' !in body
    ensures GlobMatch("[" + body + "]" + rest, name) <==>
            name != "" && ClassMatches(body, name[0]) && GlobMatch(rest, name[1..])
  {
    hide ClassMatches;
    var pattern := "[" + body + "]" + rest;
    ClassEnds(pattern, 1, |body| + 1);
    assert pattern[1..|body| + 1] == body && pattern[|body| + 2..] == rest && pattern[0] == '[';
  }

  lemma {:induction false} ClassEnds(pattern: string, i: nat, end: nat)
    requires i <= end < |pattern| && pattern[end] == ']'
    requires forall k :: i <= k < end ==> pattern[k] != ']' && pattern[k] != '\\'
    ensures ClassEnd(pattern, i) == end
    decreases end - i
  {
    if i < end { ClassEnds(pattern, i + 1, end); }
  }

  /** An escaped character stands for itself, whatever it is. */
  lemma GlobEscape(c: char, rest: string, name: string)
    ensures GlobMatch(['\\', c] + rest, name) <==> name != "" && name[0] == c && GlobMatch(rest, name[1..])
  {
    assert (['\\', c] + rest)[2..] == rest;
  }

  /** MatchResource */
  predicate MatchResource(selector: string, target: string) {
    match CleanLogicalPath(target)
    case None => false
    case Some(cleanTarget) =>
      if HasSuffix(selector, "/**") then
        match CleanLogicalPath(selector[..|selector| - 3])
        case None => false
        case Some(base) => cleanTarget == base || HasPrefix(cleanTarget, base + "/")
      else
        && Clean(selector) == selector && '\\' !in selector && !IsAbs(selector)
        && GlobMatch(selector, cleanTarget)
  }

  /** WorkspaceRelative */
  function WorkspaceRelative(workspaceRoot: string, target: string): Option<string> {
    match (CleanLogicalPath(workspaceRoot), CleanLogicalPath(target))
    case (Some(root), Some(cleanTarget)) =>
      if cleanTarget == root || !HasPrefix(cleanTarget, root + "/") then None
      else Some(cleanTarget[|root| + 1..])
    case _ => None
  }

  /** A path is below another exactly when its components extend the other's. */
  predicate AtOrBelow(base: string, target: string) { Components(base) <= Components(target) }

  /** The string-prefix test used by the code decides the component order. */
  lemma PrefixByComponents(base: string, target: string)
    ensures AtOrBelow(base, target) <==> target == base || HasPrefix(target, base + "/")
  {
    var b, t := Components(base), Components(target);
    JoinSplit(base, '/');
    JoinSplit(target, '/');
    if HasPrefix(target, base + "/") {
      var rest := target[|base| + 1..];
      assert target == base + ['/'] + rest;
      SplitConcat(base, '/', rest);
    }
    if b <= t && b != t {
      var below := t[|b|..];
      assert t == b + below;
      JoinConcat(b, below, '/');
      assert target == (base + "/") + Join(below, '/');
    }
  }

  /** Any other selector matches by its pattern, if it is itself clean, relative and
      without escapes. */
  lemma GlobSelector(selector: string, target: string)
    requires !HasSuffix(selector, "/**")
    ensures MatchResource(selector, target) <==>
            && IsCleanPath(target) && GlobMatch(selector, target)
            && '\\' !in selector && !HasPrefix(selector, "/") && Clean(selector) == selector
  {
    CleanLogicalPathMeaning(target);
  }

  /** A double-star selector reaches exactly the targets whose components extend its
      base, and only when both are clean. */
  lemma SubtreeSelector(base: string, target: string)
    ensures MatchResource(base + "/**", target) <==>
            IsCleanPath(base) && IsCleanPath(target) && AtOrBelow(base, target)
  {
    var selector := base + "/**";
    assert selector[..|selector| - 3] == base && HasSuffix(selector, "/**");
    CleanLogicalPathMeaning(base);
    CleanLogicalPathMeaning(target);
    PrefixByComponents(base, target);
  }

  /** WorkspaceRelative succeeds exactly on clean targets strictly below a clean
      root, and its answer is the one clean path that rebuilds the target. */
  lemma WorkspaceRelativeMeaning(root: string, target: string)
    ensures WorkspaceRelative(root, target).Some? <==>
            IsCleanPath(root) && IsCleanPath(target) && AtOrBelow(root, target) && root != target
    ensures WorkspaceRelative(root, target).Some? ==>
              var relative := WorkspaceRelative(root, target).value;
              && IsCleanPath(relative)
              && target == root + "/" + relative
              && Components(target) == Components(root) + Components(relative)
              && forall other :: target == root + "/" + other ==> other == relative
  {
    CleanLogicalPathMeaning(root);
    CleanLogicalPathMeaning(target);
    PrefixByComponents(root, target);
    if WorkspaceRelative(root, target).Some? {
      var relative := WorkspaceRelative(root, target).value;
      assert target == root + ['/'] + relative == root + "/" + relative;
      SplitConcat(root, '/', relative);
      forall c | c in relative ensures c in target {
        var i :| 0 <= i < |relative| && relative[i] == c;
        assert target[|root| + 1 + i] == c;
      }
      forall other | target == root + "/" + other ensures other == relative {
        assert target[|root| + 1..] == other;
      }
    }
  }

  datatype FilesystemResource = FilesystemResource(
    pattern: string, workspaceRoot: string, operations: seq<string>)

  /** validateFilesystemScope */
  predicate ValidFilesystemScope(resource: FilesystemResource) {
    match CleanLogicalPath(resource.workspaceRoot)
    case None => false
    case Some(root) =>
      && (resource.pattern == root || HasPrefix(resource.pattern, root + "/"))
      && forall operation <- resource.operations ::
           operation == "filesystem.read" || operation == "filesystem.write"
  }

  predicate Literal(s: string) { '*' !in s && '?' !in s && '[' !in s && '\\' !in s }

  lemma {:induction false} LiteralPrefix(
    prefix: string, rest: string, name: string)
    requires Literal(prefix)
    requires GlobMatch(prefix + rest, name)
    ensures HasPrefix(name, prefix) && GlobMatch(rest, name[|prefix|..])
  {
    if prefix == "" {
      assert prefix + rest == rest;
    } else {
      assert (prefix + rest)[0] == prefix[0] && (prefix + rest)[1..] == prefix[1..] + rest;
      LiteralPrefix(prefix[1..], rest, name[1..]);
      assert name == [name[0]] + name[1..] && prefix == [prefix[0]] + prefix[1..];
      assert name[|prefix|..] == name[1..][|prefix| - 1..];
    }
  }

  lemma SubtreeBaseBelow(root: string, base: string)
    requires root != "" && root[|root| - 1] != '*'
    requires base + "/**" == root || HasPrefix(base + "/**", root + "/")
    ensures base == root || HasPrefix(base, root + "/")
  {
    var pattern := base + "/**";
    assert pattern[|pattern| - 1] == '*';
    assert pattern != root;
    assert pattern[..|root| + 1] == root + "/" && pattern[|root|] == '/';
    if |base| >= |root| + 1 {
      assert base[..|root| + 1] == pattern[..|root| + 1];
    } else {
      assert pattern[|base| + 1] == '*' && pattern[|base| + 2] == '*';
      assert |root| == |base|;
      assert base == pattern[..|root|] == root;
    }
  }

  lemma {:induction false} AtOrBelowTransitive(a: string, b: string, c: string)
    requires AtOrBelow(a, b) && AtOrBelow(b, c)
    ensures AtOrBelow(a, c)
  {
  }

  lemma CleanIsNonempty(value: string)
    requires IsCleanPath(value)
    ensures value != ""
  {
    CleanPathIsFixed(value);
  }

  /** Confinement: an accepted selector whose workspace root has no pattern
      characters matches only that root or paths below it. */
  lemma ScopeConfines(resource: FilesystemResource, target: string)
    requires ValidFilesystemScope(resource) && Literal(resource.workspaceRoot)
    requires MatchResource(resource.pattern, target)
    ensures IsCleanPath(target) && AtOrBelow(resource.workspaceRoot, target)
  {
    hide Clean, GlobMatch, IsCleanPath, CleanLogicalPath, Components;
    var root, pattern := resource.workspaceRoot, resource.pattern;
    CleanLogicalPathMeaning(root);
    CleanLogicalPathMeaning(target);
    assert root != "" && root[|root| - 1] != '*' by { CleanIsNonempty(root); }
    if HasSuffix(pattern, "/**") {
      var base := pattern[..|pattern| - 3];
      assert pattern == base + "/**";
      SubtreeSelector(base, target);
      SubtreeBaseBelow(root, base);
      PrefixByComponents(root, base);
      AtOrBelowTransitive(root, base, target);
    } else {
      var literal := if pattern == root then root else root + "/";
      var below := pattern[|literal|..];
      assert pattern == literal + below;
      LiteralPrefix(literal, below, target);
      PrefixByComponents(root, target);
    }
  }

  // ---- roots that are patterns ------------------------------------------------------

  function FillChar(c: char): char { if c == '*' || c == '?' then 'x' else c }

  /** Every '*' and '?' replaced by 'x'. */
  function Fill(s: string): (t: string)
    ensures |t| == |s|
  {
    seq(|s|, i requires 0 <= i < |s| => FillChar(s[i]))
  }

  function FillAll(parts: seq<string>): seq<string> {
    seq(|parts|, i requires 0 <= i < |parts| => Fill(parts[i]))
  }

  lemma FillHead(s: string)
    requires s != ""
    ensures Fill(s) == [FillChar(s[0])] + Fill(s[1..])
  {
  }

  /** Filling neither makes nor removes a separator. */
  lemma {:induction false} FillComponents(s: string)
    ensures Components(Fill(s)) == FillAll(Components(s))
  {
    if s == "" {
      assert Fill("") == "";
    } else {
      FillComponents(s[1..]);
      FillHead(s);
      SplitHead(s, '/');
      SplitHead(Fill(s), '/');
      assert Fill(s)[1..] == Fill(s[1..]);
      var rest := Split(s[1..], '/');
      if s[0] != '/' {
        assert Fill([s[0]] + rest[0]) == [FillChar(s[0])] + Fill(rest[0]);
        assert FillAll([[s[0]] + rest[0]] + rest[1..]) == [Fill([s[0]] + rest[0])] + FillAll(rest[1..]);
        assert FillAll(rest) == [Fill(rest[0])] + FillAll(rest[1..]);
      } else {
        assert Fill("") == "" && FillAll([""] + rest) == [""] + FillAll(rest);
      }
    }
  }

  lemma FillOrdinary(c: string)
    requires Ordinary(c)
    ensures Ordinary(Fill(c))
  {
    assert forall i :: 0 <= i < |c| && Fill(c)[i] == '.' ==> c[i] == '.';
  }

  lemma FillClean(s: string)
    requires IsCleanPath(s)
    ensures IsCleanPath(Fill(s))
  {
    FillComponents(s);
    var parts := Components(s);
    forall c | c in FillAll(parts) ensures Ordinary(c) {
      var i :| 0 <= i < |parts| && FillAll(parts)[i] == c;
      assert parts[i] in parts;
      FillOrdinary(parts[i]);
    }
    assert forall i :: 0 <= i < |s| ==> s[i] in s;
  }

  /** A pattern without classes matches its own filling. */
  lemma {:induction false} FillMatches(pattern: string)
    requires Plain(pattern)
    ensures GlobMatch(pattern, Fill(pattern))
  {
    if pattern != "" {
      var name := Fill(pattern);
      FillHead(pattern);
      FillMatches(pattern[1..]);
      assert name[0] == FillChar(pattern[0]) && name[1..] == Fill(pattern[1..]);
      if pattern[0] == '*' {
        StarSkipsOne(pattern, name);
      }
    }
  }

  lemma StarSkipsOne(pattern: string, name: string)
    requires pattern != "" && pattern[0] == '*' && name != "" && name[0] != '/'
    requires GlobMatch(pattern[1..], name[1..])
    ensures GlobMatch(pattern, name)
  {
    assert GlobMatch(pattern, name[1..]);
  }

  /** What a root read as its own pattern reaches besides itself. */
  function EscapeTarget(root: string): string {
    if HasSuffix(root, "/**") then root[..|root| - 3] + "/xx" else Fill(root)
  }

  /** The scope that consists of the root itself, for reading. */
  function RootScope(root: string): FilesystemResource {
    FilesystemResource(root, root, ["filesystem.read"])
  }

  lemma SubtreeRootEscapes(base: string)
    requires IsCleanPath(base + "/**")
    ensures MatchResource(base + "/**", base + "/xx") && !AtOrBelow(base + "/**", base + "/xx")
  {
    var root, target := base + "/**", base + "/xx";
    assert root == base + ['/'] + "**" && target == base + ['/'] + "xx";
    SplitConcat(base, '/', "**");
    SplitConcat(base, '/', "xx");
    SplitWhole("**", '/');
    SplitWhole("xx", '/');
    var b, parts := Components(base), Components(root);
    assert parts == b + ["**"] && Components(target) == b + ["xx"];
    forall c | c in b ensures Ordinary(c) { assert c in parts; }
    assert forall c :: c in base ==> c in root;
    assert Ordinary("xx");
    SubtreeSelector(base, target);
    assert parts[|b|] == "**" && Components(target)[|b|] == "xx";
  }

  lemma GlobRootEscapes(root: string)
    requires IsCleanPath(root) && '[' !in root && ('*' in root || '?' in root) && !HasSuffix(root, "/**")
    ensures MatchResource(root, Fill(root)) && !AtOrBelow(root, Fill(root))
  {
    CleanPathIsFixed(root);
    FillClean(root);
    FillMatches(root);
    CleanLogicalPathMeaning(Fill(root));
    PrefixByComponents(root, Fill(root));
    var i :| 0 <= i < |root| && (root[i] == '*' || root[i] == '?');
    assert Fill(root)[i] == 'x';
  }

  /** A clean root with '*' or '?' and no class is itself an accepted scope that
      reaches a path outside the root. */
  lemma PatternRootEscapes(root: string)
    requires IsCleanPath(root) && '[' !in root && ('*' in root || '?' in root)
    ensures ValidFilesystemScope(RootScope(root))
    ensures MatchResource(root, EscapeTarget(root)) && !AtOrBelow(root, EscapeTarget(root))
  {
    CleanLogicalPathMeaning(root);
    if HasSuffix(root, "/**") {
      assert root == root[..|root| - 3] + "/**";
      SubtreeRootEscapes(root[..|root| - 3]);
    } else {
      GlobRootEscapes(root);
    }
  }

  /** Every scope that is accepted for a root, with at least one operation as every
      stored resource has, stays at or below it. */
  ghost predicate Confines(root: string) {
    forall scope: FilesystemResource, target: string ::
      scope.workspaceRoot == root && scope.operations != [] && ValidFilesystemScope(scope)
      && MatchResource(scope.pattern, target) ==>
        AtOrBelow(root, target)
  }

  /** Exactly the clean, class-free roots without '*' and '?' confine their scopes. */
  lemma RootConfinesExactly(root: string)
    requires IsCleanPath(root) && '[' !in root
    ensures Confines(root) <==> '*' !in root && '?' !in root
  {
    if '*' in root || '?' in root {
      PatternRootEscapes(root);
      var scope := RootScope(root);
      assert ValidFilesystemScope(scope) && MatchResource(scope.pattern, EscapeTarget(root));
    } else {
      forall scope: FilesystemResource, target: string
        | scope.workspaceRoot == root && ValidFilesystemScope(scope) && MatchResource(scope.pattern, target)
        ensures AtOrBelow(root, target)
      {
        ScopeConfines(scope, target);
      }
    }
  }

  lemma ClassMatchesOne()
    ensures GlobMatch("[a]", "a")
  {
    var pattern := "[a]";
    assert ClassEnd(pattern, 2) == 2 && ClassEnd(pattern, 1) == 2;
    assert pattern[1..2] == "a" && !HasPrefix("a", "^");
    assert "a"[1..] == "" && Ranges("") == Some([]) && ClassChar("a") == Some(('a', ""));
    assert [('a', 'a')] + [] == [('a', 'a')] && Ranges("a") == Some([('a', 'a')]);
    assert [('a', 'a')][0] == ('a', 'a') && InRanges([('a', 'a')], 'a');
    assert ClassMatches("a", 'a');
    assert pattern[3..] == "" && GlobMatch("", "");
  }

  /** A class in the root can open it too, as this one does. Whether it does is
      a question about what the class matches. */
  lemma ClassRootEscapes()
    ensures ValidFilesystemScope(RootScope("[a]"))
    ensures MatchResource("[a]", "a") && !AtOrBelow("[a]", "a")
  {
    hide Clean, GlobMatch, CleanLogicalPath;
    CleanLogicalPathMeaning("[a]");
    CleanLogicalPathMeaning("a");
    SplitWhole("[a]", '/');
    SplitWhole("a", '/');
    assert Ordinary("[a]") && Ordinary("a");
    CleanPathIsFixed("[a]");
    ClassMatchesOne();
    assert |"[a]"| == 3 && |"a"| == 1;
    assert !HasSuffix("[a]", "/**") by { assert "[a]"[0] != '/'; }
    assert Components("[a]")[0] == "[a]" && Components("a")[0] == "a";
  }
}
