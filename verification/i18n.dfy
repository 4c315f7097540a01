/** Placeholder substitution (`format`) and the dotted-key lookup in a nested
    language pack (`t`). The pack contents themselves are data, not logic. */
module I18n {
  import opened Wrappers
  import opened Strings

  /** The `\w` class of regular expressions: ASCII letters, digits and `_`. */
  predicate IsWordChar(c: char) {
    ('a' <= c <= 'z') || ('A' <= c <= 'Z') || ('0' <= c <= '9') || c == '_'
  }

  predicate IsWord(s: string) {
    0 < |s| && forall k :: 0 <= k < |s| ==> IsWordChar(s[k])
  }

  /** Length of the longest prefix of word characters. */
  function WordRun(s: string): (n: nat)
    ensures n <= |s|
    ensures forall k :: 0 <= k < n ==> IsWordChar(s[k])
    ensures n < |s| ==> !IsWordChar(s[n])
  {
    if 0 < |s| && IsWordChar(s[0]) then 1 + WordRun(s[1..]) else 0
  }

  /** The placeholder `{k}`. */
  function Placeholder(k: string): string {
    "{" + k + "}"
  }

  /** `params?.[k] ?? "{k}"`: the parameter, or the placeholder itself. */
  function Substitute(params: map<string, string>, k: string): string {
    if k in params then params[k] else Placeholder(k)
  }

  /** `template.replace(/\{(\w+)\}/g, ...)`: scanning left to right, each
      `{word}` is replaced by its parameter and every other character is kept,
      so text without an opening brace comes back as it is. */
  function Format(template: string, params: map<string, string>): (r: string)
    ensures '{' !in template ==> r == template
    decreases |template|
  {
    if |template| == 0 then ""
    else if template[0] == '{' then
      var n := WordRun(template[1..]);
      if 0 < n && n + 1 < |template| && template[n + 1] == '}' then
        Substitute(params, template[1..n + 1]) + Format(template[n + 2..], params)
      else [template[0]] + Format(template[1..], params)
    else
      assert '{' in template[1..] ==> '{' in template;
      assert template == [template[0]] + template[1..];
      [template[0]] + Format(template[1..], params)
  }

  /** Without parameters every placeholder stays literally in place: the
      template comes back unchanged. */
  lemma {:induction false} FormatWithoutParams(template: string)
    ensures Format(template, map[]) == template
    decreases |template|
  {
    if |template| > 0 {
      var n := WordRun(template[1..]);
      if template[0] == '{' && 0 < n && n + 1 < |template| && template[n + 1] == '}' {
        FormatReplacesFirst(template, map[], n);
        FormatWithoutParams(template[n + 2..]);
        PlaceholderPrefix(template, n);
      } else {
        FormatKeepsFirst(template, map[]);
        FormatWithoutParams(template[1..]);
        assert template == [template[0]] + template[1..];
      }
    }
  }

  /** One step of the scan over a leading placeholder `{word}`. */
  lemma FormatReplacesFirst(template: string, params: map<string, string>, n: nat)
    requires 0 < |template| && n == WordRun(template[1..]) && 0 < n && n + 1 < |template|
    requires template[0] == '{' && template[n + 1] == '}'
    ensures Format(template, params) == Substitute(params, template[1..n + 1]) + Format(template[n + 2..], params)
  {
  }

  /** One step of the scan over a leading character that starts no placeholder. */
  lemma FormatKeepsFirst(template: string, params: map<string, string>)
    requires 0 < |template|
    requires var n := WordRun(template[1..]);
             !(template[0] == '{' && 0 < n && n + 1 < |template| && template[n + 1] == '}')
    ensures Format(template, params) == [template[0]] + Format(template[1..], params)
  {
  }

  /** A matched placeholder is, character for character, the front of the template. */
  lemma PlaceholderPrefix(template: string, n: nat)
    requires n + 1 < |template| && template[0] == '{' && template[n + 1] == '}'
    ensures Substitute(map[], template[1..n + 1]) + template[n + 2..] == template
  {
    var k := template[1..n + 1];
    assert template[..n + 2] == [template[0]] + k + [template[n + 1]];
    assert template == template[..n + 2] + template[n + 2..];
  }

  /** A word run stops at a following non-word character. */
  lemma {:induction false} WordRunAppend(a: string, b: string)
    requires 0 < |b| && !IsWordChar(b[0])
    ensures WordRun(a + b) == WordRun(a)
    decreases |a|
  {
    if 0 < |a| && IsWordChar(a[0]) {
      assert (a + b)[1..] == a[1..] + b;
      WordRunAppend(a[1..], b);
    } else if |a| == 0 {
      assert a + b == b;
    }
  }

  /** A placeholder at the front is replaced and the scan resumes after it. */
  lemma FormatPlaceholder(k: string, rest: string, params: map<string, string>)
    requires IsWord(k)
    ensures Format(Placeholder(k) + rest, params) == Substitute(params, k) + Format(rest, params)
  {
    var t := Placeholder(k) + rest;
    assert t[1..] == k + ("}" + rest);
    WordRunAppend(k, "}" + rest);
    assert WordRun(k) == |k| by {
      WordRunOfWord(k);
    }
    assert t[1..|k| + 1] == k;
    assert t[|k| + 2..] == rest;
  }

  lemma {:induction false} WordRunOfWord(k: string)
    requires forall j :: 0 <= j < |k| ==> IsWordChar(k[j])
    ensures WordRun(k) == |k|
    decreases |k|
  {
    if 0 < |k| {
      WordRunOfWord(k[1..]);
    }
  }

  /** A language pack: text at the leaves, nested tables of named entries. */
  datatype Pack = Text(text: string) | Table(entries: map<string, Pack>)

  /** Follows a path of entry names; Some only when it ends at a text. */
  function Resolve(cur: Pack, path: seq<string>): (r: Option<string>)
    ensures cur.Text? ==> (r.Some? <==> |path| == 0)
    ensures r.Some? && |path| == 0 ==> cur == Text(r.value)
    decreases |path|
  {
    if |path| == 0 then
      match cur
      case Text(s) => Some(s)
      case Table(_) => None
    else
      match cur
      case Text(_) => None
      case Table(m) => if path[0] in m then Resolve(m[path[0]], path[1..]) else None
  }

  /** The node a path leads to through nested tables, if any: the `cur = cur[p]`
      steps of the lookup loop, before the final `typeof cur === "string"` test. */
  function Walk(cur: Pack, path: seq<string>): Option<Pack>
    decreases |path|
  {
    if |path| == 0 then Some(cur)
    else
      match cur
      case Text(_) => None
      case Table(m) => if path[0] in m then Walk(m[path[0]], path[1..]) else None
  }

  /** Walking a path in two pieces is walking the first and then the second. */
  lemma {:induction false} WalkAppend(cur: Pack, p: seq<string>, q: seq<string>)
    ensures Walk(cur, p + q) == match Walk(cur, p) case Some(n) => Walk(n, q) case None => None
    decreases |p|
  {
    if |p| == 0 {
      assert p + q == q;
    } else if cur.Table? && p[0] in cur.entries {
      assert (p + q)[0] == p[0] && (p + q)[1..] == p[1..] + q;
      WalkAppend(cur.entries[p[0]], p[1..], q);
    }
  }

  /** The lookup yields a text exactly when walking the whole path through
      tables ends at a text node, and then it yields that node's text. */
  lemma {:induction false} ResolveIsWalkToText(cur: Pack, path: seq<string>)
    ensures Resolve(cur, path).Some? <==> Walk(cur, path).Some? && Walk(cur, path).value.Text?
    ensures Resolve(cur, path).Some? ==> Walk(cur, path) == Some(Text(Resolve(cur, path).value))
    decreases |path|
  {
    if 0 < |path| && cur.Table? && path[0] in cur.entries {
      ResolveIsWalkToText(cur.entries[path[0]], path[1..]);
    }
  }

  /** `LANG_PACK[lang] || LANG_PACK.zh`. */
  function SelectPack(packs: map<string, Pack>, lang: string): (r: Option<Pack>)
    ensures r.Some? <==> lang in packs || "zh" in packs
    ensures lang in packs ==> r == Some(packs[lang])
    ensures lang !in packs && "zh" in packs ==> r == Some(packs["zh"])
  {
    if lang in packs then Some(packs[lang])
    else if "zh" in packs then Some(packs["zh"])
    else None
  }

  /** `t(key, params)`: the text at the dotted path `key` of the current
      language's pack, formatted with `params`; the key itself on any miss. */
  function Translate(packs: map<string, Pack>, lang: string, key: string, params: map<string, string>): (r: string)
    ensures SelectPack(packs, lang).None? ==> r == key
  {
    match SelectPack(packs, lang)
    case None => key
    case Some(pack) =>
      match Resolve(pack, Split(key, '.'))
      case None => key
      case Some(s) => Format(s, params)
  }

  /** A key written as the dots-joined names of a path that ends at a text
      translates to that text, formatted. */
  lemma TranslatePath(packs: map<string, Pack>, lang: string, path: seq<string>, s: string, params: map<string, string>)
    requires 1 <= |path| && forall k :: 0 <= k < |path| ==> '.' !in path[k]
    requires SelectPack(packs, lang).Some? && Resolve(SelectPack(packs, lang).value, path) == Some(s)
    ensures Translate(packs, lang, Join(path, '.'), params) == Format(s, params)
  {
    SplitJoin(path, '.');
  }

  /** A key whose path does not end at a text translates to itself. */
  lemma TranslateMiss(packs: map<string, Pack>, lang: string, path: seq<string>, params: map<string, string>)
    requires 1 <= |path| && forall k :: 0 <= k < |path| ==> '.' !in path[k]
    requires SelectPack(packs, lang).Some? && Resolve(SelectPack(packs, lang).value, path).None?
    ensures Translate(packs, lang, Join(path, '.'), params) == Join(path, '.')
  {
    SplitJoin(path, '.');
  }

  /** An unknown language falls back to the Chinese pack. */
  lemma TranslateFallsBackToZh(packs: map<string, Pack>, lang: string, key: string, params: map<string, string>)
    requires lang !in packs && "zh" in packs
    ensures Translate(packs, lang, key, params) == Translate(packs, "zh", key, params)
  {
  }

  /** The caption template of the English pack's `common.dataTime` entry. */
  const DataTimeTemplate: string := "Data time: {time}"

  /** The fragment of the English pack holding that entry. */
  const EnglishFragment: Pack := Table(map["common" := Table(map["dataTime" := Text(DataTimeTemplate)])])

  /** The data-time caption, filled in: the dotted key reaches the template
      and its one placeholder is replaced by the time. */
  lemma DataTimeCaption(time: string)
    ensures Translate(map["en" := EnglishFragment], "en", "common.dataTime", map["time" := time])
         == "Data time: " + time
  {
    var path := ["common", "dataTime"];
    assert Join(path, '.') == "common.dataTime";
    assert Resolve(EnglishFragment, path) == Some(DataTimeTemplate) by {
      assert path[1..] == ["dataTime"];
      assert path[1..][1..] == [];
    }
    TranslatePath(map["en" := EnglishFragment], "en", path, DataTimeTemplate, map["time" := time]);
    FormatDataTime(time);
  }

  lemma FormatDataTime(time: string)
    ensures Format(DataTimeTemplate, map["time" := time]) == "Data time: " + time
  {
    var params := map["time" := time];
    var caption, name := "Data time: ", "time";
    assert '{' !in caption;
    assert IsWord(name);
    assert DataTimeTemplate == caption + Placeholder(name);
    FormatTextThenPlaceholder(caption, name, params);
  }

  /** Brace-free text followed by one placeholder. */
  lemma FormatTextThenPlaceholder(text: string, k: string, params: map<string, string>)
    requires '{' !in text && IsWord(k)
    ensures Format(text + Placeholder(k), params) == text + Substitute(params, k)
  {
    FormatPrefix(text, Placeholder(k), params);
    FormatPlaceholder(k, "", params);
    assert Placeholder(k) + "" == Placeholder(k);
  }

  /** Brace-free text in front of a template passes through unchanged. */
  lemma {:induction false} FormatPrefix(text: string, rest: string, params: map<string, string>)
    requires '{' !in text
    ensures Format(text + rest, params) == text + Format(rest, params)
    decreases |text|
  {
    if |text| > 0 {
      var t, tail := text + rest, text[1..];
      assert t[0] == text[0] != '{';
      assert t[1..] == tail + rest;
      FormatKeepsFirst(t, params);
      assert '{' !in tail;
      FormatPrefix(tail, rest, params);
      assert text == [text[0]] + tail;
    } else {
      assert text + rest == rest;
    }
  }
}
