/** Obligation identifiers (internal/gatemole/ir.go:34-119).

    Letters and digits are Unicode classes in the original; here they are a
    predicate from outside, of which only this is used: '.' and '_' are neither. */
module Obligations {
  import opened Text

  type CharClass = char -> bool

  predicate ValidClass(word: CharClass) { !word('.') && !word('_') }

  datatype Kind = Behavior | Security | RequiredTest | RuntimeSignal | Rollback

  datatype EvidenceKind =
    | BehaviorTrace | SecurityCheck | TestCoverage | RuntimeMetric | RollbackPlan | VerifierOutput

  function KindName(kind: Kind): string {
    match kind
    case Behavior => "behavior"
    case Security => "security"
    case RequiredTest => "required_test"
    case RuntimeSignal => "runtime_signal"
    case Rollback => "rollback"
  }

  /** The evidence IRFromSpec asks for, by kind. */
  function RequiredEvidence(kind: Kind): EvidenceKind {
    match kind
    case Behavior => BehaviorTrace
    case Security => SecurityCheck
    case RequiredTest => TestCoverage
    case RuntimeSignal => RuntimeMetric
    case Rollback => RollbackPlan
  }

  datatype Obligation = Obligation(id: string, kind: Kind, text: string, index: nat)

  datatype Spec = Spec(
    version: string,
    id: string,
    owner: string,
    ownedPaths: seq<string>,
    risk: string,
    behavior: seq<string>,
    security: seq<string>,
    requiredTests: seq<string>,
    metrics: seq<string>,
    strategy: string,
    flag: string)

  // ---- slugs --------------------------------------------------------------------

  /** The maximal runs of letters and digits. */
  function Words(word: CharClass, text: string): seq<string> {
    if text == "" then []
    else
      var init, c := text[..|text| - 1], text[|text| - 1];
      var words := Words(word, init);
      if !word(c) then words
      else if words == [] || !word(init[|init| - 1]) then words + [[c]]
      else words[..|words| - 1] + [words[|words| - 1] + [c]]
  }

  predicate IsWord(word: CharClass, w: string) {
    w != "" && forall i :: 0 <= i < |w| ==> word(w[i])
  }

  predicate WordList(word: CharClass, words: seq<string>) {
    forall i :: 0 <= i < |words| ==> IsWord(word, words[i])
  }

  lemma {:induction false} WordsAreWords(word: CharClass, text: string)
    ensures WordList(word, Words(word, text))
    ensures text != "" && word(text[|text| - 1]) ==> Words(word, text) != []
    ensures Words(word, text) == [] <==> forall i :: 0 <= i < |text| ==> !word(text[i])
  {
    if text != "" {
      var init, c := text[..|text| - 1], text[|text| - 1];
      WordsAreWords(word, init);
      assert forall i :: 0 <= i < |init| ==> text[i] == init[i];
      var words := Words(word, init);
      if word(c) && words != [] && word(init[|init| - 1]) {
        assert IsWord(word, words[|words| - 1] + [c]);
      }
    }
  }

  function TrimLeft(s: string): string {
    if s != "" && s[0] == '_' then TrimLeft(s[1..]) else s
  }

  function TrimRight(s: string): string {
    if s != "" && s[|s| - 1] == '_' then TrimRight(s[..|s| - 1]) else s
  }

  /** strings.Trim(s, "_") */
  function Trim(s: string): string { TrimRight(TrimLeft(s)) }

  /** Words joined by '_' start and end with a letter or digit. */
  lemma {:induction false} JoinEnds(word: CharClass, words: seq<string>)
    requires WordList(word, words) && words != []
    ensures var s := Join(words, '_'); s != "" && word(s[0]) && word(s[|s| - 1])
  {
    assert IsWord(word, words[0]);
    if |words| > 1 {
      forall i | 0 <= i < |words[1..]| ensures IsWord(word, words[1..][i]) {
        assert IsWord(word, words[i + 1]);
      }
      JoinEnds(word, words[1..]);
    }
  }

  lemma {:induction false} JoinLastGrows(words: seq<string>, c: char)
    requires words != []
    ensures Join(words[..|words| - 1] + [words[|words| - 1] + [c]], '_') == Join(words, '_') + [c]
  {
    var grown := words[..|words| - 1] + [words[|words| - 1] + [c]];
    if |words| > 1 {
      JoinLastGrows(words[1..], c);
      assert grown[1..] == words[1..][..|words| - 2] + [words[|words| - 1] + [c]];
    }
  }

  /** The builder's text after a prefix: words joined by '_', and a '_' for
      separators at either end. */
  function Built(word: CharClass, text: string): string {
    var words := Words(word, text);
    (if text != "" && !word(text[0]) then "_" else "")
    + Join(words, '_')
    + (if text != "" && words != [] && !word(text[|text| - 1]) then "_" else "")
  }

  lemma BuiltStep(word: CharClass, text: string, c: char)
    requires ValidClass(word)
    ensures Built(word, text + [c]) ==
            if word(c) then Built(word, text) + [c]
            else if text != "" && !word(text[|text| - 1]) then Built(word, text)
            else Built(word, text) + "_"
  {
    var words := Words(word, text);
    var after := text + [c];
    assert after[..|text|] == text;
    WordsAreWords(word, text);
    if word(c) && words != [] {
      if word(text[|text| - 1]) {
        JoinLastGrows(words, c);
      } else {
        JoinConcat(words, [[c]], '_');
        assert Join([[c]], '_') == [c];
      }
    }
    if text != "" { assert after[0] == text[0]; }
  }

  /** Trimming removes exactly the separators at the ends. */
  lemma TrimEnds(s: string, left: bool, right: bool)
    requires s != "" && s[0] != '_' && s[|s| - 1] != '_'
    ensures Trim((if left then "_" else "") + s + (if right then "_" else "")) == s
  {
    var tail := s + if right then "_" else "";
    assert TrimLeft(tail) == tail;
    assert ("_" + tail)[1..] == tail && (if left then "_" else "") + tail ==
           (if left then "_" else "") + s + (if right then "_" else "");
    assert TrimLeft((if left then "_" else "") + tail) == tail;
    assert TrimRight(s) == s && (s + "_")[..|s|] == s;
    assert s + "" == s;
    assert TrimRight(tail) == s;
  }

  lemma BuiltTrims(word: CharClass, text: string)
    requires ValidClass(word)
    ensures Trim(Built(word, text)) == Join(Words(word, text), '_')
  {
    var words := Words(word, text);
    WordsAreWords(word, text);
    if words == [] {
      assert TrimLeft("_") == "" && TrimRight("") == "";
    } else {
      JoinEnds(word, words);
      TrimEnds(Join(words, '_'), !word(text[0]), !word(text[|text| - 1]));
    }
  }

  /** obligationSlug on lower-cased text: the words joined by single underscores. */
  method ObligationSlug(word: CharClass, lowered: string) returns (slug: string)
    requires ValidClass(word)
    ensures slug == Join(Words(word, lowered), '_')
  {
    var b := "";
    var previousUnderscore := false;
    for i := 0 to |lowered|
      invariant b == Built(word, lowered[..i])
      invariant previousUnderscore <==> i > 0 && !word(lowered[i - 1])
    {
      assert lowered[..i + 1] == lowered[..i] + [lowered[i]];
      BuiltStep(word, lowered[..i], lowered[i]);
      if word(lowered[i]) {
        b := b + [lowered[i]];
        previousUnderscore := false;
        continue;
      }
      if !previousUnderscore {
        b := b + "_";
        previousUnderscore := true;
      }
    }
    assert lowered[..|lowered|] == lowered;
    BuiltTrims(word, lowered);
    slug := Trim(b);
  }

  // ---- identifiers -----------------------------------------------------------------

  /** The slug, or the fallback for texts without a letter or digit. */
  function SlugOf(word: CharClass, lowered: string, index: nat): string {
    if Words(word, lowered) == [] then "item_" + Decimal(index) else Join(Words(word, lowered), '_')
  }

  function Base(specID: string, kind: Kind, slug: string): string {
    specID + "." + KindName(kind) + "." + slug
  }

  predicate Dotless(s: string) { '.' !in s }

  lemma {:induction false} JoinHasNoDot(word: CharClass, words: seq<string>)
    requires ValidClass(word) && WordList(word, words)
    ensures Dotless(Join(words, '_'))
  {
    if words != [] {
      assert IsWord(word, words[0]);
      forall i | 0 <= i < |words[1..]| ensures IsWord(word, words[1..][i]) {
        assert IsWord(word, words[i + 1]);
      }
      JoinHasNoDot(word, words[1..]);
    }
  }

  lemma SlugHasNoDot(word: CharClass, lowered: string, index: nat)
    requires ValidClass(word)
    ensures Dotless(SlugOf(word, lowered, index))
  {
    WordsAreWords(word, lowered);
    JoinHasNoDot(word, Words(word, lowered));
    assert Dotless("item_");
  }

  /** Two strings cut at their first dot agree piece by piece. */
  lemma CutAtDot(a: string, x: string, b: string, y: string)
    requires Dotless(a) && Dotless(b) && a + "." + x == b + "." + y
    ensures a == b && x == y
  {
    var s := a + "." + x;
    assert s[..|a|] == a && s[..|b|] == b;
    assert s[|a|] == '.' && s[|b|] == '.';
    assert |a| == |b|;
    assert s[|a| + 1..] == x && s[|b| + 1..] == y;
  }

  lemma SameAfterPrefix(prefix: string, x: string, y: string)
    requires prefix + x == prefix + y
    ensures x == y
  {
    assert (prefix + x)[|prefix|..] == x && (prefix + y)[|prefix|..] == y;
  }

  lemma KindNames(a: Kind, b: Kind)
    ensures Dotless(KindName(a)) && (KindName(a) == KindName(b) ==> a == b)
  {
  }

  lemma BaseInjective(specID: string, kind: Kind, slug: string, otherKind: Kind, otherSlug: string)
    requires Base(specID, kind, slug) == Base(specID, otherKind, otherSlug)
    ensures kind == otherKind && slug == otherSlug
  {
    hide KindName;
    var x, y := KindName(kind) + "." + slug, KindName(otherKind) + "." + otherSlug;
    assert Base(specID, kind, slug) == specID + "." + x;
    assert Base(specID, otherKind, otherSlug) == specID + "." + y;
    SameAfterPrefix(specID + ".", x, y);
    KindNames(kind, otherKind);
    KindNames(otherKind, kind);
    CutAtDot(KindName(kind), slug, KindName(otherKind), otherSlug);
  }

  lemma BaseExtended(specID: string, kind: Kind, slug: string, index: nat)
    ensures Base(specID, kind, slug) + "." + Decimal(index) == Base(specID, kind, slug + "." + Decimal(index))
    ensures !Dotless(slug + "." + Decimal(index))
  {
    hide KindName, Decimal;
    var s := slug + "." + Decimal(index);
    assert s[|slug|] == '.';
    assert Base(specID, kind, slug) + "." + Decimal(index) == specID + "." + KindName(kind) + "." + s;
  }

  /** The name of an obligation: its base, or the base with its index. */
  ghost predicate Named(specID: string, o: Obligation, slug: string) {
    && Dotless(slug)
    && (o.id == Base(specID, o.kind, slug) || o.id == Base(specID, o.kind, slug) + "." + Decimal(o.index))
  }

  /** A fallback name is never another obligation's base name, and equals
      another fallback only for the same kind, slug and index. */
  lemma FallbackDistinct(specID: string, kind: Kind, slug: string, index: nat, o: Obligation, oSlug: string)
    requires Dotless(slug) && Named(specID, o, oSlug)
    requires o.id == Base(specID, kind, slug) + "." + Decimal(index)
    ensures o.kind == kind && o.index == index && oSlug == slug
  {
    hide Base, KindName, Decimal;
    BaseExtended(specID, kind, slug, index);
    if o.id == Base(specID, o.kind, oSlug) {
      BaseInjective(specID, kind, slug + "." + Decimal(index), o.kind, oSlug);
    } else {
      BaseExtended(specID, o.kind, oSlug, o.index);
      BaseInjective(specID, kind, slug + "." + Decimal(index), o.kind, oSlug + "." + Decimal(o.index));
      CutAtDot(slug, Decimal(index), oSlug, Decimal(o.index));
      DecimalInjective(index, o.index);
    }
  }

  /** What IRFromSpec has emitted so far. */
  ghost predicate Issued(word: CharClass, lower: string -> string, specID: string, seen: set<string>, obligations: seq<Obligation>) {
    && (forall i, j :: 0 <= i < j < |obligations| ==> obligations[i].id != obligations[j].id)
    && (forall i, j :: 0 <= i < j < |obligations| && obligations[i].kind == obligations[j].kind ==>
          obligations[i].index != obligations[j].index)
    && (forall o <- obligations :: Named(specID, o, SlugOf(word, lower(o.text), o.index)))
    && seen == set o <- obligations :: o.id
  }

  class ObligationBuilder {
    const specID: string
    const word: CharClass
    const lower: string -> string
    var seen: set<string>

    constructor (specID: string, word: CharClass, lower: string -> string)
      ensures this.specID == specID && this.word == word && this.lower == lower && seen == {}
    {
      this.specID, this.word, this.lower := specID, word, lower;
      seen := {};
    }

    /** obligationID. The fallback name is recorded without a test; with the
        indexes of a kind all different it is new all the same. */
    method ObligationID(kind: Kind, text: string, index: nat, ghost before: seq<Obligation>) returns (id: string)
      requires ValidClass(word) && Issued(word, lower, specID, seen, before)
      requires forall o <- before :: o.kind == kind ==> o.index != index
      modifies this`seen
      ensures Issued(word, lower, specID, seen, before + [Obligation(id, kind, text, index)])
      ensures id !in old(seen)
      ensures var base := Base(specID, kind, SlugOf(word, lower(text), index));
              id == if base in old(seen) then base + "." + Decimal(index) else base
    {
      var slug := ObligationSlug(word, lower(text));
      WordsAreWords(word, lower(text));
      if Words(word, lower(text)) != [] { JoinEnds(word, Words(word, lower(text))); }
      if slug == "" { slug := "item_" + Decimal(index); }
      assert slug == SlugOf(word, lower(text), index);
      SlugHasNoDot(word, lower(text), index);
      id := Base(specID, kind, slug);
      if id in seen {
        id := id + "." + Decimal(index);
        forall o | o in before ensures o.id != id {
          if o.id == id {
            FallbackDistinct(specID, kind, slug, index, o, SlugOf(word, lower(o.text), o.index));
          }
        }
      }
      seen := seen + {id};
      IssuedNext(word, lower, specID, old(seen), before, Obligation(id, kind, text, index));
    }
  }

  const Titles := [(Behavior, "behavior"), (Security, "security"), (RequiredTest, "required_test"),
                   (RuntimeSignal, "runtime_signal"), (Rollback, "rollback")]

  /** An obligation's ID begins with its spec and the name of its kind. */
  predicate Titled(specID: string, o: Obligation) {
    exists title <- Titles :: title.0 == o.kind && HasPrefix(o.id, specID + "." + title.1 + ".")
  }

  lemma NamedIsTitled(specID: string, o: Obligation, slug: string)
    requires Named(specID, o, slug)
    ensures Titled(specID, o)
  {
    var title := (o.kind, KindName(o.kind));
    assert title in Titles by {
      assert title in [Titles[0], Titles[1], Titles[2], Titles[3], Titles[4]];
    }
    assert HasPrefix(o.id, specID + "." + title.1 + ".");
  }

  lemma IssuedNext(word: CharClass, lower: string -> string, specID: string, seen: set<string>, before: seq<Obligation>, o: Obligation)
    requires Issued(word, lower, specID, seen, before) && o.id !in seen
    requires forall p <- before :: p.kind == o.kind ==> p.index != o.index
    requires Named(specID, o, SlugOf(word, lower(o.text), o.index))
    ensures Issued(word, lower, specID, seen + {o.id}, before + [o])
  {
    hide Named, SlugOf;
    var after := before + [o];
    forall p | p in after ensures Named(specID, p, SlugOf(word, lower(p.text), p.index)) {}
    assert forall p <- before :: p.id in seen;
    forall i, j | 0 <= i < j < |after| ensures after[i].id != after[j].id {
      assert after[i] in before;
    }
    forall i, j | 0 <= i < j < |after| && after[i].kind == after[j].kind ensures after[i].index != after[j].index {
      assert after[i] in before;
    }
  }

  lemma NothingIssued(word: CharClass, lower: string -> string, specID: string)
    ensures Issued(word, lower, specID, {}, [])
  {
  }

  lemma IssuedAreDistinct(word: CharClass, lower: string -> string, specID: string, seen: set<string>, obligations: seq<Obligation>)
    requires Issued(word, lower, specID, seen, obligations)
    ensures DistinctIDs(obligations) && forall o <- obligations :: Titled(specID, o)
  {
    hide KindName, SlugOf;
    forall o | o in obligations ensures Titled(specID, o) {
      NamedIsTitled(specID, o, SlugOf(word, lower(o.text), o.index));
    }
  }

  // ---- from a spec to its obligations ---------------------------------------------

  /** The entries of a spec in the order they become obligations. */
  function Entries(spec: Spec): seq<(Kind, string, nat)> {
    Section(Behavior, spec.behavior) + Section(Security, spec.security)
    + Section(RequiredTest, spec.requiredTests) + Section(RuntimeSignal, spec.metrics)
    + if spec.strategy == "" then []
      else [(Rollback, if spec.flag == "" then spec.strategy else spec.strategy + ":" + spec.flag, 1)]
  }

  function Section(kind: Kind, items: seq<string>): seq<(Kind, string, nat)> {
    seq(|items|, i requires 0 <= i < |items| => (kind, items[i], i + 1))
  }

  predicate Matches(obligations: seq<Obligation>, entries: seq<(Kind, string, nat)>) {
    |obligations| == |entries|
    && forall i :: 0 <= i < |entries| ==>
         (obligations[i].kind, obligations[i].text, obligations[i].index) == entries[i]
  }

  predicate DistinctIDs(obligations: seq<Obligation>) {
    forall i, j :: 0 <= i < j < |obligations| ==> obligations[i].id != obligations[j].id
  }

  lemma EntriesIndexed(spec: Spec, i: nat, j: nat)
    requires i < j < |Entries(spec)| && Entries(spec)[i].0 == Entries(spec)[j].0
    ensures Entries(spec)[i].2 != Entries(spec)[j].2
  {
  }

  /** IRFromSpec: one obligation per entry, in order, with pairwise distinct IDs
      for all texts, colliding and empty slugs included. */
  method IRFromSpec(spec: Spec, word: CharClass, lower: string -> string) returns (obligations: seq<Obligation>)
    requires ValidClass(word)
    ensures Matches(obligations, Entries(spec)) && DistinctIDs(obligations)
    ensures forall o <- obligations :: Titled(spec.id, o)
  {
    hide Issued, Entries, Titled;
    NothingIssued(word, lower, spec.id);
    var builder := new ObligationBuilder(spec.id, word, lower);
    var entries := Entries(spec);
    obligations := [];
    for i := 0 to |entries|
      invariant Matches(obligations, entries[..i])
      invariant Issued(word, lower, spec.id, builder.seen, obligations)
      invariant builder.specID == spec.id && builder.word == word && builder.lower == lower
      invariant fresh(builder)
    {
      var (kind, text, index) := entries[i];
      forall o | o in obligations && o.kind == kind ensures o.index != index {
        var k :| 0 <= k < i && obligations[k] == o;
        EntriesIndexed(spec, k, i);
      }
      var id := builder.ObligationID(kind, text, index, obligations);
      assert entries[..i + 1] == entries[..i] + [entries[i]];
      obligations := obligations + [Obligation(id, kind, text, index)];
    }
    assert entries[..|entries|] == entries;
    IssuedAreDistinct(word, lower, spec.id, builder.seen, obligations);
  }
}
