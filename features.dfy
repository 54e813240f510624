/** The token features and the corpus preprocessing of feat_gen.py. The
    Porter stemmer and the Unicode tests of Python strings are library code
    whose behaviour is not modelled: they are passed in as functions. */
module Features {

  /** What `token2features` reads besides the sentence: the string
      operations it borrows from its libraries (`PorterStemmer().stem`,
      `unicode.lower` and the `unicode.is…` tests) and the set of
      abbreviations, which the program fixes to `Abbreviations`. */
  datatype TextOps = TextOps(
    stem: string -> string,
    lower: string -> string,
    isAlnum: string -> bool,
    isNumeric: string -> bool,
    isDigit: string -> bool,
    isUpper: string -> bool,
    isLower: string -> bool,
    abbreviations: set<string>)

  /** The module-level set `abbreviations`. */
  const Abbreviations: set<string> := {
    "imho", "potd", "l8", "ffs", "ianal", "wcw", "irl", "nsfl", "hmu", "idk", "cc", "dgaf",
    "omg", "w/", "mtfbwy", "omw", "btw", "eml", "b4", "nsfw", "fath", "tldr", "ysk", "bff",
    "futab", "b/c", "jk", "nm", "bae", "fomo", "qotd", "ppl", "eli5", "mt", "lol", "fyi",
    "tbh", "lolz", "gg", "til", "ymmv", "op", "dftba", "ftfy", "orly", "imo", "wotd", "ootd",
    "em", "oh", "lms", "wdymbt", "g2g", "ttys", "gtg", "sfw", "fbf", "brb", "idc", "tl;dr",
    "oan", "hmb", "otp", "lmk", "bc", "mcm", "yt", "ttyn", "rofl", "btaim", "afaik", "f2f",
    "thx", "ikr", "hbd", "tmi", "txt", "ttyl", "gtr", "hth", "ama", "nvm", "lmao", "ily",
    "asl", "ianad", "wbu", "fbo", "tbt", "mm", "tgif", "tx", "smh", "icymi", "gr8", "yolo",
    "dae", "roflmao"}

  /** The dictionary `contractions`: a contraction and its expansion. */
  const Contractions: map<string, string> := map[
    "n't" := "not",
    "'t" := "not",
    "'cause" := "because",
    "'ve" := "have",
    "'d" := "had",
    "'ll" := "will",
    "'s" := "is",
    "'m" := "am",
    "'am" := "madam",
    "'clock" := "of the clock",
    "'n" := "shall not",
    "'re" := "are",
    "'all" := "all"]

  // ---------------------------------------------------------------------------
  // String tests

  /** `w.startswith(p)`. */
  predicate StartsWith(w: string, p: string)
  {
    |p| <= |w| && w[..|p|] == p
  }

  /** `w.endswith(p)`. */
  predicate EndsWith(w: string, p: string)
  {
    |p| <= |w| && w[|w| - |p|..] == p
  }

  /** A word that looks like a web address. */
  predicate IsUrl(w: string)
  {
    StartsWith(w, "http") || EndsWith(w, ".com")
  }

  // ---------------------------------------------------------------------------
  // `token2features`

  /** `[name]` when the feature fires, nothing otherwise. */
  function Flag(fires: bool, name: string): (fs: seq<string>)
    ensures fires ==> fs == [name]
    ensures !fires ==> fs == []
  {
    if fires then [name] else []
  }

  /** The features of the word tests, in the order they are appended. */
  function WordFlags(ops: TextOps, word: string): seq<string>
  {
    Flag(ops.isAlnum(word), "IS_ALNUM")
    + Flag(ops.isNumeric(word), "IS_NUMERIC")
    + Flag(ops.isDigit(word), "IS_DIGIT")
    + Flag(ops.isUpper(word), "IS_UPPER")
    + Flag(ops.isLower(word), "IS_LOWER")
    + Flag(IsUrl(word), "IS_URL")
    + Flag(word in ops.abbreviations, "IS_ABRV")
    + Flag(StartsWith(word, "#"), "IS_HASHTAG")
    + Flag(StartsWith(word, "@"), "IS_MENTION")
  }

  /** The features of token `i` itself: bias, position, the word, its lower
      case and stem, then the word tests. */
  function OwnFeatures(ops: TextOps, sent: seq<string>, i: nat): seq<string>
    requires i < |sent|
  {
    var word := sent[i];
    ["BIAS"]
    + Flag(i == 0, "SENT_BEGIN")
    + Flag(i == |sent| - 1, "SENT_END")
    + ["WORD=" + word, "LCASE=" + ops.lower(word), "STEMMED=" + ops.stem(word)]
    + WordFlags(ops, word)
  }

  /** `prefix + pf` for every feature `pf`, in order. */
  function Prefixed(prefix: string, fs: seq<string>): (r: seq<string>)
    ensures |r| == |fs|
  {
    if |fs| == 0 then [] else [prefix + fs[0]] + Prefixed(prefix, fs[1..])
  }

  /** `token2features(sent, i, add_neighs)`: the features of token `i`, and
      with `add_neighs` those of its neighbours, computed without theirs. */
  function Token2Features(ops: TextOps, sent: seq<string>, i: nat, addNeighs: bool): seq<string>
    requires i < |sent|
    decreases addNeighs
  {
    var own := OwnFeatures(ops, sent, i);
    if !addNeighs then own
    else
      own
      + (if i > 0 then Prefixed("PREV_", Token2Features(ops, sent, i - 1, false)) else [])
      + (if i < |sent| - 1 then Prefixed("NEXT_", Token2Features(ops, sent, i + 1, false)) else [])
  }

  // ---------------------------------------------------------------------------
  // Which strings are features

  /** A prefixed feature is the prefix followed by one of the features. */
  lemma {:induction false} PrefixedMembers(p: string, fs: seq<string>, x: string)
    ensures x in Prefixed(p, fs) <==> exists g :: g in fs && x == p + g
  {
    if |fs| > 0 {
      PrefixedMembers(p, fs[1..], x);
      assert forall g :: g in fs <==> g == fs[0] || g in fs[1..];
    }
  }

  lemma WordFlagsMembers(ops: TextOps, w: string, x: string)
    ensures x in WordFlags(ops, w) <==>
      (x == "IS_ALNUM" && ops.isAlnum(w)) || (x == "IS_NUMERIC" && ops.isNumeric(w))
      || (x == "IS_DIGIT" && ops.isDigit(w)) || (x == "IS_UPPER" && ops.isUpper(w))
      || (x == "IS_LOWER" && ops.isLower(w)) || (x == "IS_URL" && IsUrl(w))
      || (x == "IS_ABRV" && w in ops.abbreviations) || (x == "IS_HASHTAG" && StartsWith(w, "#"))
      || (x == "IS_MENTION" && StartsWith(w, "@"))
  {
  }

  lemma OwnMembers(ops: TextOps, sent: seq<string>, i: nat, x: string)
    requires i < |sent|
    ensures x in OwnFeatures(ops, sent, i) <==>
      x == "BIAS" || (i == 0 && x == "SENT_BEGIN") || (i == |sent| - 1 && x == "SENT_END")
      || x == "WORD=" + sent[i] || x == "LCASE=" + ops.lower(sent[i]) || x == "STEMMED=" + ops.stem(sent[i])
      || x in WordFlags(ops, sent[i])
  {
  }

  lemma FeatureMembers(ops: TextOps, sent: seq<string>, i: nat, addNeighs: bool, x: string)
    requires i < |sent|
    ensures x in Token2Features(ops, sent, i, addNeighs) <==>
      x in OwnFeatures(ops, sent, i)
      || (addNeighs && i > 0 && x in Prefixed("PREV_", Token2Features(ops, sent, i - 1, false)))
      || (addNeighs && i < |sent| - 1 && x in Prefixed("NEXT_", Token2Features(ops, sent, i + 1, false)))
  {
  }

  /** A string that begins with neither `P` nor `N`, so with neither
      neighbour prefix. */
  predicate Unprefixed(x: string)
  {
    |x| > 0 && x[0] != 'P' && x[0] != 'N'
  }

  lemma OwnUnprefixed(ops: TextOps, sent: seq<string>, i: nat, x: string)
    requires i < |sent| && x in OwnFeatures(ops, sent, i)
    ensures Unprefixed(x)
  {
    OwnMembers(ops, sent, i, x);
    WordFlagsMembers(ops, sent[i], x);
    var w := sent[i];
    assert ("WORD=" + w)[0] == 'W' && ("LCASE=" + ops.lower(w))[0] == 'L';
    assert ("STEMMED=" + ops.stem(w))[0] == 'S';
  }

  /** Every feature of a neighbour begins with the neighbour's prefix. */
  lemma PrefixedHead(p: string, fs: seq<string>, x: string)
    requires |p| > 0 && x in Prefixed(p, fs)
    ensures |x| >= |p| && x[..|p|] == p && x[0] == p[0]
  {
    PrefixedMembers(p, fs, x);
    var g :| g in fs && x == p + g;
    assert x[..|p|] == p;
  }

  /** An unprefixed string is a feature of token `i` exactly when it is one
      of its own features. */
  lemma UnprefixedMembers(ops: TextOps, sent: seq<string>, i: nat, addNeighs: bool, x: string)
    requires i < |sent| && Unprefixed(x)
    ensures x in Token2Features(ops, sent, i, addNeighs) <==> x in OwnFeatures(ops, sent, i)
  {
    FeatureMembers(ops, sent, i, addNeighs, x);
    if addNeighs && i > 0 && x in Prefixed("PREV_", Token2Features(ops, sent, i - 1, false)) {
      PrefixedHead("PREV_", Token2Features(ops, sent, i - 1, false), x);
      assert false;
    }
    if addNeighs && i < |sent| - 1 && x in Prefixed("NEXT_", Token2Features(ops, sent, i + 1, false)) {
      PrefixedHead("NEXT_", Token2Features(ops, sent, i + 1, false), x);
      assert false;
    }
  }

  // ---------------------------------------------------------------------------
  // What the features promise

  /** `"BIAS"` is always the first feature. */
  lemma BiasFirst(ops: TextOps, sent: seq<string>, i: nat, addNeighs: bool)
    requires i < |sent|
    ensures |Token2Features(ops, sent, i, addNeighs)| > 0 && Token2Features(ops, sent, i, addNeighs)[0] == "BIAS"
  {
  }

  /** `SENT_BEGIN` fires exactly on the first token, `SENT_END` exactly on
      the last. */
  lemma PositionFeatures(ops: TextOps, sent: seq<string>, i: nat, addNeighs: bool)
    requires i < |sent|
    ensures "SENT_BEGIN" in Token2Features(ops, sent, i, addNeighs) <==> i == 0
    ensures "SENT_END" in Token2Features(ops, sent, i, addNeighs) <==> i == |sent| - 1
  {
    var w := sent[i];
    assert ("WORD=" + w)[0] == 'W' && ("LCASE=" + ops.lower(w))[0] == 'L';
    assert ("STEMMED=" + ops.stem(w))[1] == 'T';
    UnprefixedMembers(ops, sent, i, addNeighs, "SENT_BEGIN");
    OwnMembers(ops, sent, i, "SENT_BEGIN");
    WordFlagsMembers(ops, w, "SENT_BEGIN");
    UnprefixedMembers(ops, sent, i, addNeighs, "SENT_END");
    OwnMembers(ops, sent, i, "SENT_END");
    WordFlagsMembers(ops, w, "SENT_END");
  }

  /** The word, its lower case and its stem are always features. */
  lemma WordFeatures(ops: TextOps, sent: seq<string>, i: nat, addNeighs: bool)
    requires i < |sent|
    ensures "WORD=" + sent[i] in Token2Features(ops, sent, i, addNeighs)
    ensures "LCASE=" + ops.lower(sent[i]) in Token2Features(ops, sent, i, addNeighs)
    ensures "STEMMED=" + ops.stem(sent[i]) in Token2Features(ops, sent, i, addNeighs)
  {
    var w := sent[i];
    FeatureMembers(ops, sent, i, addNeighs, "WORD=" + w);
    OwnMembers(ops, sent, i, "WORD=" + w);
    FeatureMembers(ops, sent, i, addNeighs, "LCASE=" + ops.lower(w));
    OwnMembers(ops, sent, i, "LCASE=" + ops.lower(w));
    FeatureMembers(ops, sent, i, addNeighs, "STEMMED=" + ops.stem(w));
    OwnMembers(ops, sent, i, "STEMMED=" + ops.stem(w));
  }

  /** A feature named `IS_…` is a feature of token `i` exactly when its word
      test fires. */
  lemma FlagFeature(ops: TextOps, sent: seq<string>, i: nat, addNeighs: bool, name: string)
    requires i < |sent| && |name| > 0 && name[0] == 'I'
    ensures name in Token2Features(ops, sent, i, addNeighs) <==> name in WordFlags(ops, sent[i])
  {
    var w := sent[i];
    assert ("WORD=" + w)[0] == 'W' && ("LCASE=" + ops.lower(w))[0] == 'L';
    assert ("STEMMED=" + ops.stem(w))[0] == 'S';
    UnprefixedMembers(ops, sent, i, addNeighs, name);
    OwnMembers(ops, sent, i, name);
  }

  /** Each of the five character-class tests fires its feature exactly when
      the test holds. */
  lemma WordTests(ops: TextOps, sent: seq<string>, i: nat, addNeighs: bool)
    requires i < |sent|
    ensures var fs, w := Token2Features(ops, sent, i, addNeighs), sent[i];
      ("IS_ALNUM" in fs <==> ops.isAlnum(w))
      && ("IS_NUMERIC" in fs <==> ops.isNumeric(w))
      && ("IS_DIGIT" in fs <==> ops.isDigit(w))
      && ("IS_UPPER" in fs <==> ops.isUpper(w))
      && ("IS_LOWER" in fs <==> ops.isLower(w))
  {
    var w := sent[i];
    FlagFeature(ops, sent, i, addNeighs, "IS_ALNUM");
    WordFlagsMembers(ops, w, "IS_ALNUM");
    FlagFeature(ops, sent, i, addNeighs, "IS_NUMERIC");
    WordFlagsMembers(ops, w, "IS_NUMERIC");
    FlagFeature(ops, sent, i, addNeighs, "IS_DIGIT");
    WordFlagsMembers(ops, w, "IS_DIGIT");
    FlagFeature(ops, sent, i, addNeighs, "IS_UPPER");
    WordFlagsMembers(ops, w, "IS_UPPER");
    FlagFeature(ops, sent, i, addNeighs, "IS_LOWER");
    WordFlagsMembers(ops, w, "IS_LOWER");
  }

  /** `IS_URL`, `IS_ABRV`, `IS_HASHTAG` and `IS_MENTION` fire exactly when
      the word starts with `http` or ends with `.com`, is a known
      abbreviation, starts with `#`, and starts with `@`. */
  lemma PatternTests(ops: TextOps, sent: seq<string>, i: nat, addNeighs: bool)
    requires i < |sent|
    ensures var fs, w := Token2Features(ops, sent, i, addNeighs), sent[i];
      ("IS_URL" in fs <==> StartsWith(w, "http") || EndsWith(w, ".com"))
      && ("IS_ABRV" in fs <==> w in ops.abbreviations)
      && ("IS_HASHTAG" in fs <==> StartsWith(w, "#"))
      && ("IS_MENTION" in fs <==> StartsWith(w, "@"))
  {
    var w := sent[i];
    FlagFeature(ops, sent, i, addNeighs, "IS_URL");
    WordFlagsMembers(ops, w, "IS_URL");
    FlagFeature(ops, sent, i, addNeighs, "IS_ABRV");
    WordFlagsMembers(ops, w, "IS_ABRV");
    FlagFeature(ops, sent, i, addNeighs, "IS_HASHTAG");
    WordFlagsMembers(ops, w, "IS_HASHTAG");
    FlagFeature(ops, sent, i, addNeighs, "IS_MENTION");
    WordFlagsMembers(ops, w, "IS_MENTION");
  }

  /** With the program's own abbreviation set, a word is flagged as an
      abbreviation exactly when it is one of the 98 listed words. */
  lemma AbbreviationsFlagged(ops: TextOps, sent: seq<string>, i: nat, addNeighs: bool)
    requires i < |sent| && ops.abbreviations == Abbreviations
    ensures "IS_ABRV" in Token2Features(ops, sent, i, addNeighs) <==> sent[i] in Abbreviations
  {
    PatternTests(ops, sent, i, addNeighs);
  }

  /** A string whose first character differs from `q`'s does not start
      with `q`. */
  lemma HeadExcludes(x: string, q: string)
    requires |q| > 0 && |x| > 0 && x[0] != q[0]
    ensures !StartsWith(x, q)
  {
    if |q| <= |x| {
      assert x[..|q|][0] != q[0];
    }
  }

  /** Without `add_neighs` no feature carries a neighbour prefix. */
  lemma NoNeighboursWithout(ops: TextOps, sent: seq<string>, i: nat, x: string)
    requires i < |sent| && x in Token2Features(ops, sent, i, false)
    ensures !StartsWith(x, "PREV_") && !StartsWith(x, "NEXT_")
  {
    FeatureMembers(ops, sent, i, false, x);
    OwnUnprefixed(ops, sent, i, x);
    HeadExcludes(x, "PREV_");
    HeadExcludes(x, "NEXT_");
  }

  /** `p + g` is a prefixed feature of `fs` exactly when `g` is in `fs`. */
  lemma PrefixedExactly(p: string, fs: seq<string>, g: string)
    ensures p + g in Prefixed(p, fs) <==> g in fs
  {
    PrefixedMembers(p, fs, p + g);
    if p + g in Prefixed(p, fs) {
      var h :| h in fs && p + g == p + h;
      assert g == (p + g)[|p|..] == (p + h)[|p|..] == h;
    }
  }

  /** With `add_neighs`, `PREV_` + g is a feature exactly when there is a
      previous token and g is one of its features computed without
      neighbours. */
  lemma PreviousFeatures(ops: TextOps, sent: seq<string>, i: nat, g: string)
    requires i < |sent|
    ensures "PREV_" + g in Token2Features(ops, sent, i, true) <==>
      i > 0 && g in Token2Features(ops, sent, i - 1, false)
  {
    var x := "PREV_" + g;
    assert x[0] == 'P';
    FeatureMembers(ops, sent, i, true, x);
    if x in OwnFeatures(ops, sent, i) {
      OwnUnprefixed(ops, sent, i, x);
    }
    if i < |sent| - 1 && x in Prefixed("NEXT_", Token2Features(ops, sent, i + 1, false)) {
      PrefixedHead("NEXT_", Token2Features(ops, sent, i + 1, false), x);
    }
    if i > 0 {
      PrefixedExactly("PREV_", Token2Features(ops, sent, i - 1, false), g);
    }
  }

  /** With `add_neighs`, `NEXT_` + g is a feature exactly when there is a
      next token and g is one of its features computed without
      neighbours. */
  lemma NextFeatures(ops: TextOps, sent: seq<string>, i: nat, g: string)
    requires i < |sent|
    ensures "NEXT_" + g in Token2Features(ops, sent, i, true) <==>
      i < |sent| - 1 && g in Token2Features(ops, sent, i + 1, false)
  {
    var x := "NEXT_" + g;
    assert x[0] == 'N';
    FeatureMembers(ops, sent, i, true, x);
    if x in OwnFeatures(ops, sent, i) {
      OwnUnprefixed(ops, sent, i, x);
    }
    if i > 0 && x in Prefixed("PREV_", Token2Features(ops, sent, i - 1, false)) {
      PrefixedHead("PREV_", Token2Features(ops, sent, i - 1, false), x);
    }
    if i < |sent| - 1 {
      PrefixedExactly("NEXT_", Token2Features(ops, sent, i + 1, false), g);
    }
  }

  /** Stripping a common prefix keeps a `StartsWith` relation. */
  lemma StripPrefix(p: string, g: string, q: string)
    requires StartsWith(p + g, p + q)
    ensures StartsWith(g, q)
  {
    assert (p + g)[..|p| + |q|] == p + q;
    assert g[..|q|] == (p + g)[..|p| + |q|][|p|..];
  }

  /** `x` starts with the prefix `p` and not with a second neighbour
      prefix after it. */
  predicate PrefixedOnceBy(x: string, p: string)
  {
    |x| > 0 && |p| > 0 && x[0] == p[0] && !StartsWith(x, p + "PREV_") && !StartsWith(x, p + "NEXT_")
  }

  /** A neighbour's feature, once prefixed, starts with that prefix and
      carries no second one. */
  lemma PrefixedOnce(ops: TextOps, sent: seq<string>, j: nat, p: string, x: string)
    requires j < |sent| && |p| > 0 && x in Prefixed(p, Token2Features(ops, sent, j, false))
    ensures PrefixedOnceBy(x, p)
  {
    var inner := Token2Features(ops, sent, j, false);
    PrefixedMembers(p, inner, x);
    var g :| g in inner && x == p + g;
    NoNeighboursWithout(ops, sent, j, g);
    if StartsWith(x, p + "PREV_") {
      StripPrefix(p, g, "PREV_");
    }
    if StartsWith(x, p + "NEXT_") {
      StripPrefix(p, g, "NEXT_");
    }
  }

  /** The four nested prefixes that never occur. */
  predicate NotNested(x: string)
  {
    !StartsWith(x, "PREV_PREV_") && !StartsWith(x, "PREV_NEXT_")
    && !StartsWith(x, "NEXT_PREV_") && !StartsWith(x, "NEXT_NEXT_")
  }

  /** A string with no prefix, or with exactly one, is not nested. */
  lemma SingleLayer(x: string)
    requires Unprefixed(x) || PrefixedOnceBy(x, "PREV_") || PrefixedOnceBy(x, "NEXT_")
    ensures NotNested(x)
  {
    assert "PREV_" + "PREV_" == "PREV_PREV_" && "PREV_" + "NEXT_" == "PREV_NEXT_";
    assert "NEXT_" + "PREV_" == "NEXT_PREV_" && "NEXT_" + "NEXT_" == "NEXT_NEXT_";
    if x[0] != 'P' {
      HeadExcludes(x, "PREV_PREV_");
      HeadExcludes(x, "PREV_NEXT_");
    }
    if x[0] != 'N' {
      HeadExcludes(x, "NEXT_PREV_");
      HeadExcludes(x, "NEXT_NEXT_");
    }
  }

  /** Every feature carries no neighbour prefix, or exactly one. */
  lemma FeatureShape(ops: TextOps, sent: seq<string>, i: nat, addNeighs: bool, x: string)
    requires i < |sent| && x in Token2Features(ops, sent, i, addNeighs)
    ensures Unprefixed(x) || PrefixedOnceBy(x, "PREV_") || PrefixedOnceBy(x, "NEXT_")
  {
    FeatureMembers(ops, sent, i, addNeighs, x);
    if x in OwnFeatures(ops, sent, i) {
      OwnUnprefixed(ops, sent, i, x);
    }
    if i > 0 && x in Prefixed("PREV_", Token2Features(ops, sent, i - 1, false)) {
      PrefixedOnce(ops, sent, i - 1, "PREV_", x);
    }
    if i < |sent| - 1 && x in Prefixed("NEXT_", Token2Features(ops, sent, i + 1, false)) {
      PrefixedOnce(ops, sent, i + 1, "NEXT_", x);
    }
  }

  /** Neighbour features are never nested: no feature starts with
      `PREV_PREV_`, `PREV_NEXT_`, `NEXT_PREV_` or `NEXT_NEXT_`. */
  lemma NoNestedNeighbours(ops: TextOps, sent: seq<string>, i: nat, addNeighs: bool, x: string)
    requires i < |sent| && x in Token2Features(ops, sent, i, addNeighs)
    ensures NotNested(x)
  {
    FeatureShape(ops, sent, i, addNeighs, x);
    SingleLayer(x);
  }

  // ---------------------------------------------------------------------------
  // `preprocess_corpus`

  /** The loop of `preprocess_corpus` over every token of every sentence: a
      slang word becomes its meaning, otherwise a contraction becomes its
      expansion, and any other token stays as it is. `slang` is the
      dictionary read from `slang_dict.csv`. */
  method PreprocessCorpus(corpus: seq<array<string>>, slang: map<string, string>)
    requires forall a, b :: 0 <= a < b < |corpus| ==> corpus[a] != corpus[b]
    modifies set s | s in corpus
    ensures forall s, i :: 0 <= s < |corpus| && 0 <= i < corpus[s].Length ==>
      var w := old(corpus[s][i]);
      (w in slang ==> corpus[s][i] == slang[w])
      && (w !in slang && w in Contractions ==> corpus[s][i] == Contractions[w])
      && (w !in slang && w !in Contractions ==> corpus[s][i] == w)
  {
    for s := 0 to |corpus|
      invariant forall t, i :: s <= t < |corpus| && 0 <= i < corpus[t].Length ==>
        corpus[t][i] == old(corpus[t][i])
      invariant forall t, i :: 0 <= t < s && 0 <= i < corpus[t].Length ==>
        var w := old(corpus[t][i]);
        (w in slang ==> corpus[t][i] == slang[w])
        && (w !in slang && w in Contractions ==> corpus[t][i] == Contractions[w])
        && (w !in slang && w !in Contractions ==> corpus[t][i] == w)
    {
      var sent := corpus[s];
      label Row:
      for i := 0 to sent.Length
        invariant forall t, k :: 0 <= t < |corpus| && t != s && 0 <= k < corpus[t].Length ==>
          corpus[t][k] == old@Row(corpus[t][k])
        invariant forall k :: i <= k < sent.Length ==> sent[k] == old(sent[k])
        invariant forall k :: 0 <= k < i ==>
          var w := old(sent[k]);
          (w in slang ==> sent[k] == slang[w])
          && (w !in slang && w in Contractions ==> sent[k] == Contractions[w])
          && (w !in slang && w !in Contractions ==> sent[k] == w)
      {
        if sent[i] in slang {
          sent[i] := slang[sent[i]];
        } else if sent[i] in Contractions {
          sent[i] := Contractions[sent[i]];
        }
      }
    }
  }
}
