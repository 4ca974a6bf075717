/**
 * `TextNormalizer`: the clean-up applied to a reply before it is spoken. Text is a
 * sequence of user-perceived characters, each given by its Unicode scalars.
 */
module TextNormalizer {

  type Scalar = nat
  /** A Swift `Character` (extended grapheme cluster), as its `unicodeScalars`. */
  type Character = seq<Scalar>
  type Text = seq<Character>

  /** The Emoji and Emoji_Presentation properties of Unicode Technical Standard #51, Annex A. */
  datatype ScalarProperties = ScalarProperties(isEmoji: Scalar -> bool, isEmojiPresentation: Scalar -> bool)

  /** An `NSRegularExpression` pattern with its options. */
  datatype Regex = Regex(pattern: string, anchorsMatchLines: bool)

  /**
   * The regular-expression engine: whether a pattern compiles, and the result of
   * replacing every match with a template.
   */
  datatype RegexEngine = RegexEngine(compiles: Regex -> bool, replaceMatches: (Regex, Text, Text) -> Text)

  /** The one-scalar characters spelling an ASCII literal. */
  function Lit(s: string): (r: Text)
    ensures |r| == |s|
    ensures forall i :: 0 <= i < |s| ==> r[i] == [s[i] as nat]
  {
    seq(|s|, i requires 0 <= i < |s| => [s[i] as nat])
  }

  const Lt: Character := ['<' as nat]
  const Gt: Character := ['>' as nat]
  const Amp: Character := ['&' as nat]
  const Backslash: Character := ['\\' as nat]

  // ---------------------------------------------------------------- emoji filter

  /** `Character.isEmoji`. */
  predicate IsEmoji(c: Character, props: ScalarProperties)
    ensures IsEmoji(c, props) ==> |c| > 0 && props.isEmoji(c[0])
  {
    (|c| > 0 && props.isEmoji(c[0]) && props.isEmojiPresentation(c[0])) ||
    (|c| > 1 && props.isEmoji(c[0]) && exists k :: 0 <= k < |c| && props.isEmojiPresentation(c[k]))
  }

  /** Both branches need an Emoji first scalar; a lone scalar needs both properties itself. */
  lemma IsEmojiCharacterization(c: Character, props: ScalarProperties)
    ensures IsEmoji(c, props) <==>
      |c| > 0 && props.isEmoji(c[0]) &&
      (props.isEmojiPresentation(c[0]) || (|c| > 1 && exists k :: 1 <= k < |c| && props.isEmojiPresentation(c[k])))
    ensures |c| == 1 ==> (IsEmoji(c, props) <==> props.isEmoji(c[0]) && props.isEmojiPresentation(c[0]))
  {
    if |c| > 1 && props.isEmoji(c[0]) && (exists k :: 0 <= k < |c| && props.isEmojiPresentation(c[k])) {
      var k :| 0 <= k < |c| && props.isEmojiPresentation(c[k]);
      if k == 0 {
        assert props.isEmojiPresentation(c[0]);
      }
    }
  }

  /** The text with its emoji characters dropped and the others kept in order. */
  function WithoutEmojis(text: Text, props: ScalarProperties): (r: Text)
    ensures |r| <= |text|
    ensures forall k :: 0 <= k < |r| ==> !IsEmoji(r[k], props) && r[k] in text
    decreases |text|
  {
    if text == [] then []
    else
      var last := text[|text| - 1];
      var kept := WithoutEmojis(text[..|text| - 1], props);
      assert forall c :: c in kept ==> c in text by {
        forall c | c in kept ensures c in text {
          assert c in text[..|text| - 1];
        }
      }
      if IsEmoji(last, props) then kept else kept + [last]
  }

  /** `removeUnicodeEmojis`: one pass appending every non-emoji character. */
  method RemoveUnicodeEmojis(text: Text, props: ScalarProperties) returns (result: Text)
    ensures result == WithoutEmojis(text, props)
  {
    result := [];
    for i := 0 to |text|
      invariant result == WithoutEmojis(text[..i], props)
    {
      assert text[..i + 1][..i] == text[..i];
      if !IsEmoji(text[i], props) {
        result := result + [text[i]];
      }
    }
    assert text[..|text|] == text;
  }

  /** Filtering distributes over concatenation, so the kept characters stay in their order. */
  lemma {:induction false} WithoutEmojisAppend(a: Text, b: Text, props: ScalarProperties)
    ensures WithoutEmojis(a + b, props) == WithoutEmojis(a, props) + WithoutEmojis(b, props)
    decreases |b|
  {
    if b == [] {
      assert a + b == a;
    } else {
      var b' := b[..|b| - 1];
      assert (a + b)[..|a + b| - 1] == a + b';
      WithoutEmojisAppend(a, b', props);
    }
  }

  /** Exactly the non-emoji characters are kept, each as often as it occurs. */
  lemma {:induction false} WithoutEmojisCounts(text: Text, props: ScalarProperties, c: Character)
    ensures multiset(WithoutEmojis(text, props))[c] == if IsEmoji(c, props) then 0 else multiset(text)[c]
    decreases |text|
  {
    if text != [] {
      var init := text[..|text| - 1];
      var last := text[|text| - 1];
      WithoutEmojisCounts(init, props, c);
      assert text == init + [last];
      assert multiset(text) == multiset(init) + multiset{last};
      if !IsEmoji(last, props) {
        assert WithoutEmojis(text, props) == WithoutEmojis(init, props) + [last];
        assert multiset(WithoutEmojis(text, props)) == multiset(WithoutEmojis(init, props)) + multiset{last};
      }
    }
  }

  /** Text without emoji characters passes unchanged. */
  lemma {:induction false} WithoutEmojisIdentity(text: Text, props: ScalarProperties)
    requires forall k :: 0 <= k < |text| ==> !IsEmoji(text[k], props)
    ensures WithoutEmojis(text, props) == text
    decreases |text|
  {
    if text != [] {
      var init := text[..|text| - 1];
      WithoutEmojisIdentity(init, props);
      assert init + [text[|text| - 1]] == text;
    }
  }

  lemma WithoutEmojisIdempotent(text: Text, props: ScalarProperties)
    ensures WithoutEmojis(WithoutEmojis(text, props), props) == WithoutEmojis(text, props)
  {
    WithoutEmojisIdentity(WithoutEmojis(text, props), props);
  }

  // ---------------------------------------------------------------- regular-expression passes

  /** `replaceText`: a pattern that cannot be built leaves the text as it was. */
  function ReplaceText(text: Text, regex: Regex, template: Text, engine: RegexEngine): (r: Text)
    ensures !engine.compiles(regex) ==> r == text
    ensures engine.compiles(regex) ==> r == engine.replaceMatches(regex, text, template)
  {
    if engine.compiles(regex) then engine.replaceMatches(regex, text, template) else text
  }

  const EmojiTag: Regex := Regex(":[a-zA-Z0-9_+-]+:", false)

  /** `removeEmojiTags`: deletes `:name:` shortcodes. */
  function RemoveEmojiTags(text: Text, engine: RegexEngine): (r: Text)
    ensures !engine.compiles(EmojiTag) ==> r == text
  {
    ReplaceText(text, EmojiTag, [], engine)
  }

  /** The markdown rules of `removeMarkdown`, in the order they are applied. */
  const MarkdownRules: seq<(Regex, Text)> := [
    (Regex("\\[([^\\]]+)\\]\\([^\\)]+\\)", false), Lit("$1")),
    (Regex("\\*\\*([^\\*]+)\\*\\*", false), Lit("$1")),
    (Regex("__([^_]+)__", false), Lit("$1")),
    (Regex("\\*([^\\*]+)\\*", false), Lit("$1")),
    (Regex("_([^_]+)_", false), Lit("$1")),
    (Regex("```(?:.*?\\n)?([^`]+)```", false), Lit("$1")),
    (Regex("`([^`]+)`", false), Lit("$1")),
    (Regex("^#+\\s+(.*?)$", true), Lit("$1")),
    (Regex("^[\\-\\*\\d\\.]\\s+(.*?)$", true), Lit("$1"))
  ]

  /** The rules applied in turn, first to last; a rule whose pattern does not compile is skipped. */
  function ApplyRules(text: Text, rules: seq<(Regex, Text)>, engine: RegexEngine): (r: Text)
    ensures (forall k :: 0 <= k < |rules| ==> !engine.compiles(rules[k].0)) ==> r == text
    decreases |rules|
  {
    if rules == [] then text
    else
      var last := rules[|rules| - 1];
      ReplaceText(ApplyRules(text, rules[..|rules| - 1], engine), last.0, last.1, engine)
  }

  /** `removeMarkdown`: links, emphasis, code, headings and list markers, each replaced by its content. */
  function RemoveMarkdown(text: Text, engine: RegexEngine): (r: Text)
    ensures (forall k :: 0 <= k < |MarkdownRules| ==> !engine.compiles(MarkdownRules[k].0)) ==> r == text
  {
    ApplyRules(text, MarkdownRules, engine)
  }

  // ---------------------------------------------------------------- tags and entities

  /** The first index at or after `from` holding `c`, or `|t|`. */
  function IndexOf(t: Text, c: Character, from: nat): (k: nat)
    requires from <= |t|
    ensures from <= k <= |t|
    ensures k < |t| ==> t[k] == c
    ensures forall m :: from <= m < k ==> t[m] != c
    decreases |t| - from
  {
    if from == |t| || t[from] == c then from else IndexOf(t, c, from + 1)
  }

  /**
   * No match of `<[^>]+>` remains: after a `<` the only possible `>` is the very next
   * character.
   */
  predicate NoTag(t: Text) {
    forall i, j :: 0 <= i && i + 1 < j < |t| && t[i] == Lt && t[j] == Gt ==> t[i + 1] == Gt
  }

  /**
   * The pass `replaceText(result, "<[^>]+>", "")`: scanning left to right, a `<` whose next
   * `>` comes at least two characters later starts a match that runs to that `>`.
   */
  function StripTags(t: Text): (r: Text)
    ensures |r| <= |t|
    ensures forall c :: c in r ==> c in t
    ensures |t| > 0 && t[0] != Lt ==> |r| > 0 && r[0] == t[0]
    decreases |t|
  {
    if t == [] then []
    else
      var close := IndexOf(t, Gt, 1);
      if t[0] == Lt && 2 <= close < |t| then
        var rest := StripTags(t[close + 1..]);
        assert forall c :: c in rest ==> c in t by {
          forall c | c in rest ensures c in t {
            assert c in t[close + 1..];
          }
        }
        rest
      else
        var rest := StripTags(t[1..]);
        assert forall c :: c in rest ==> c in t by {
          forall c | c in rest ensures c in t {
            assert c in t[1..];
          }
        }
        [t[0]] + rest
  }

  lemma NoTagSuffix(t: Text, n: nat)
    requires n <= |t| && NoTag(t)
    ensures NoTag(t[n..])
  {
    var s := t[n..];
    forall i, j | 0 <= i && i + 1 < j < |s| && s[i] == Lt && s[j] == Gt
      ensures s[i + 1] == Gt
    {
      assert t[n + i] == Lt && t[n + j] == Gt;
    }
  }

  /** Keeping a character in front of a tag-free rest: fine unless it opens a tag. */
  lemma NoTagCons(c: Character, rest: Text)
    requires NoTag(rest)
    requires c == Lt ==> Gt !in rest || (|rest| > 0 && rest[0] == Gt)
    ensures NoTag([c] + rest)
  {
    var r := [c] + rest;
    forall i, j | 0 <= i && i + 1 < j < |r| && r[i] == Lt && r[j] == Gt
      ensures r[i + 1] == Gt
    {
      if i == 0 {
        assert rest[j - 1] == Gt;
      } else {
        assert rest[i - 1] == Lt && rest[j - 1] == Gt;
      }
    }
  }

  /** Nothing tag-shaped survives the tag pass. */
  lemma {:induction false} StripTagsLeavesNoTag(t: Text)
    ensures NoTag(StripTags(t))
    decreases |t|
  {
    if t != [] {
      var close := IndexOf(t, Gt, 1);
      if t[0] == Lt && 2 <= close < |t| {
        StripTagsLeavesNoTag(t[close + 1..]);
      } else {
        var rest := StripTags(t[1..]);
        StripTagsLeavesNoTag(t[1..]);
        if t[0] == Lt {
          if close < |t| {
            assert close == 1 && t[1..][0] == Gt;
          } else {
            assert close == |t|;
          }
        }
        NoTagCons(t[0], rest);
      }
    }
  }

  /** Tag-free text passes the tag pass unchanged. */
  lemma {:induction false} StripTagsIdentity(t: Text)
    requires NoTag(t)
    ensures StripTags(t) == t
    decreases |t|
  {
    if t != [] {
      var close := IndexOf(t, Gt, 1);
      NoTagSuffix(t, 1);
      StripTagsIdentity(t[1..]);
    }
  }

  lemma StripTagsIdempotent(t: Text)
    ensures StripTags(StripTags(t)) == StripTags(t)
  {
    StripTagsLeavesNoTag(t);
    StripTagsIdentity(StripTags(t));
  }

  /** `replacingOccurrences(of:with:)`: left to right, non-overlapping; an empty key replaces nothing. */
  function ReplaceAll(t: Text, key: Text, rep: Text): (r: Text)
    ensures forall c :: c in r ==> c in t || c in rep
    ensures key == [] || key[0] !in t ==> r == t
    ensures |t| > 0 && (key == [] || t[0] != key[0]) ==> |r| > 0 && r[0] == t[0]
    decreases |t|
  {
    if key == [] || |t| < |key| then t
    else if t[..|key|] == key then
      var rest := ReplaceAll(t[|key|..], key, rep);
      assert forall c :: c in rest ==> c in t || c in rep by {
        forall c | c in rest && c !in rep ensures c in t {
          assert c in t[|key|..];
        }
      }
      rep + rest
    else
      var rest := ReplaceAll(t[1..], key, rep);
      assert forall c :: c in rest ==> c in t || c in rep by {
        forall c | c in rest && c !in rep ensures c in t {
          assert c in t[1..];
        }
      }
      assert key[0] !in t ==> key[0] !in t[1..];
      [t[0]] + rest
  }

  /** Replacing with `<`/`>`-free keys and replacements keeps text tag-free. */
  lemma {:induction false} ReplaceAllKeepsNoTag(t: Text, key: Text, rep: Text)
    requires Gt !in key && Lt !in rep && Gt !in rep
    requires NoTag(t)
    ensures NoTag(ReplaceAll(t, key, rep))
    decreases |t|
  {
    if key == [] || |t| < |key| {
    } else if t[..|key|] == key {
      NoTagSuffix(t, |key|);
      ReplaceAllKeepsNoTag(t[|key|..], key, rep);
      var rest := ReplaceAll(t[|key|..], key, rep);
      var r := rep + rest;
      forall i, j | 0 <= i && i + 1 < j < |r| && r[i] == Lt && r[j] == Gt
        ensures r[i + 1] == Gt
      {
        assert rest[i - |rep|] == Lt && rest[j - |rep|] == Gt;
      }
    } else {
      NoTagSuffix(t, 1);
      ReplaceAllKeepsNoTag(t[1..], key, rep);
      var rest := ReplaceAll(t[1..], key, rep);
      if t[0] == Lt {
        if |t| > 1 && t[1] == Gt {
          assert key[0] != Gt;
          assert t[1..][0] == Gt;
        }
      }
      NoTagCons(t[0], rest);
    }
  }

  /** An entry of the special-characters table. */
  type Entry = (Text, Text)

  /** The table of `processTTSSpecialContent`: HTML entities and the escaped newline. */
  const SpecialChars: seq<Entry> := [
    (Lit("&nbsp;"), Lit(" ")),
    (Lit("&lt;"), Lit("less than")),
    (Lit("&gt;"), Lit("greater than")),
    (Lit("&amp;"), Lit("and")),
    (Lit("\\n"), Lit("\n"))
  ]

  /** A key starts with `&` or a backslash; neither a key nor a replacement holds `<` or `>`. */
  predicate SafeEntry(e: Entry) {
    |e.0| > 0 && (e.0[0] == Amp || e.0[0] == Backslash) &&
    Gt !in e.0 && Lt !in e.1 && Gt !in e.1
  }

  lemma LitAvoids(s: string, ch: char)
    requires ch !in s
    ensures [ch as nat] !in Lit(s)
  {
  }

  /** A table entry built from two ASCII strings. */
  lemma SafeLiteralEntry(key: string, replacement: string)
    requires |key| > 0 && (key[0] == '&' || key[0] == '\\')
    requires '>' !in key && '<' !in replacement && '>' !in replacement
    ensures SafeEntry((Lit(key), Lit(replacement)))
  {
    LitAvoids(key, '>');
    LitAvoids(replacement, '<');
    LitAvoids(replacement, '>');
  }

  lemma SpecialCharsSafe()
    ensures forall e :: e in SpecialChars ==> SafeEntry(e)
  {
    SafeLiteralEntry("&nbsp;", " ");
    SafeLiteralEntry("&lt;", "less than");
    SafeLiteralEntry("&gt;", "greater than");
    SafeLiteralEntry("&amp;", "and");
    SafeLiteralEntry("\\n", "\n");
  }

  /** The table's entries, replaced one after another in the order given. */
  function ReplaceEach(t: Text, entries: seq<Entry>): (r: Text)
    decreases |entries|
  {
    if entries == [] then t
    else
      var last := entries[|entries| - 1];
      ReplaceAll(ReplaceEach(t, entries[..|entries| - 1]), last.0, last.1)
  }

  /** The dictionary's iteration order is unspecified: any ordering of the table's entries. */
  predicate TableOrder(order: seq<Entry>) {
    multiset(order) == multiset(SpecialChars)
  }

  lemma TableOrderSafe(order: seq<Entry>)
    requires TableOrder(order)
    ensures forall e :: e in order ==> SafeEntry(e)
  {
    SpecialCharsSafe();
    forall e | e in order ensures SafeEntry(e) {
      assert e in multiset(order);
      assert e in SpecialChars;
    }
  }

  lemma {:induction false} ReplaceEachKeepsNoTag(t: Text, entries: seq<Entry>)
    requires forall e :: e in entries ==> SafeEntry(e)
    requires NoTag(t)
    ensures NoTag(ReplaceEach(t, entries))
    decreases |entries|
  {
    if entries != [] {
      var init := entries[..|entries| - 1];
      assert forall e :: e in init ==> e in entries;
      ReplaceEachKeepsNoTag(t, init);
      var last := entries[|entries| - 1];
      assert last in entries;
      ReplaceAllKeepsNoTag(ReplaceEach(t, init), last.0, last.1);
    }
  }

  lemma {:induction false} ReplaceEachIdentity(t: Text, entries: seq<Entry>)
    requires forall e :: e in entries ==> SafeEntry(e)
    requires Amp !in t && Backslash !in t
    ensures ReplaceEach(t, entries) == t
    decreases |entries|
  {
    if entries != [] {
      var init := entries[..|entries| - 1];
      assert forall e :: e in init ==> e in entries;
      ReplaceEachIdentity(t, init);
      assert entries[|entries| - 1] in entries;
    }
  }

  /** `processTTSSpecialContent`, as a function of the text and the table's iteration order. */
  function SpecialContent(text: Text, order: seq<Entry>): (r: Text)
    requires TableOrder(order)
    ensures NoTag(r)
  {
    TableOrderSafe(order);
    StripTagsLeavesNoTag(text);
    ReplaceEachKeepsNoTag(StripTags(text), order);
    ReplaceEach(StripTags(text), order)
  }

  /** Plain text (no tag, no entity, no escaped newline) is spoken as written, in any table order. */
  lemma SpecialContentIdentity(text: Text, order: seq<Entry>)
    requires TableOrder(order)
    requires NoTag(text) && Amp !in text && Backslash !in text
    ensures SpecialContent(text, order) == text
  {
    TableOrderSafe(order);
    StripTagsIdentity(text);
    ReplaceEachIdentity(text, order);
  }

  /** `processTTSSpecialContent`: the tag pass, then one replacement per table entry. */
  method ProcessTTSSpecialContent(text: Text, order: seq<Entry>) returns (result: Text)
    requires TableOrder(order)
    ensures result == SpecialContent(text, order)
  {
    result := StripTags(text);
    for k := 0 to |order|
      invariant result == ReplaceEach(StripTags(text), order[..k])
    {
      assert order[..k + 1][..k] == order[..k];
      assert order[..k + 1][k] == order[k];
      result := ReplaceAll(result, order[k].0, order[k].1);
    }
    assert order[..|order|] == order;
  }

  /** The four passes of `normalize`, in their order. */
  function Normalized(text: Text, engine: RegexEngine, props: ScalarProperties, order: seq<Entry>): (r: Text)
    requires TableOrder(order)
    ensures NoTag(r)
  {
    SpecialContent(RemoveMarkdown(WithoutEmojis(RemoveEmojiTags(text, engine), props), engine), order)
  }

  /** With no working regular expression, `normalize` drops emoji characters and tags and expands entities. */
  lemma NormalizedWithoutRegex(text: Text, engine: RegexEngine, props: ScalarProperties, order: seq<Entry>)
    requires TableOrder(order)
    requires forall regex: Regex {:trigger engine.compiles(regex)} :: !engine.compiles(regex)
    ensures Normalized(text, engine, props, order) == SpecialContent(WithoutEmojis(text, props), order)
  {
  }

  /** `normalize`. */
  method Normalize(text: Text, engine: RegexEngine, props: ScalarProperties, order: seq<Entry>)
    returns (result: Text)
    requires TableOrder(order)
    ensures result == Normalized(text, engine, props, order)
    ensures NoTag(result)
  {
    result := text;
    result := RemoveEmojiTags(result, engine);
    result := RemoveUnicodeEmojis(result, props);
    result := RemoveMarkdown(result, engine);
    result := ProcessTTSSpecialContent(result, order);
  }
}
