/** The snippet library: HTML escaping of snippet text, and the list of
    snippets that the modal adds to and edits and the delete button filters. */
module Snippets {
  import opened JsSemantics

  // ---------------------------------------------------------------------------
  // escapeHtml

  /** `s.replace(/c/g, rep)` for a one-character pattern. */
  function ReplaceAll(s: string, c: char, rep: string): (r: string)
    ensures c !in rep ==> c !in r
    ensures c !in s ==> r == s
  {
    if s == [] then []
    else (if s[0] == c then rep else [s[0]]) + ReplaceAll(s[1..], c, rep)
  }

  /** Replacing distributes over concatenation. */
  lemma {:induction false} ReplaceAllConcat(a: string, b: string, c: char, rep: string)
    ensures ReplaceAll(a + b, c, rep) == ReplaceAll(a, c, rep) + ReplaceAll(b, c, rep)
  {
    if a == [] {
      assert a + b == b;
    } else {
      assert (a + b)[1..] == a[1..] + b;
      ReplaceAllConcat(a[1..], b, c, rep);
    }
  }

  /** The five replacements in the order the source applies them. */
  function ReplaceChain(s: string): string
  {
    ReplaceAll(ReplaceAll(ReplaceAll(ReplaceAll(ReplaceAll(s, '&', "&amp;"), '<', "&lt;"), '>', "&gt;"), '"', "&quot;"),
               '\'', "&#039;")
  }

  /** `escapeHtml(text)`: falsy text (here, the empty string) comes back as
      it is; otherwise the five replacements are applied in turn. */
  function EscapeHtml(text: string): (r: string)
    ensures text == [] ==> r == text
  {
    if text == [] then text else ReplaceChain(text)
  }

  /** The entity for one character, as a reference for the escaping. */
  function EscapeChar(c: char): (r: string)
    ensures '<' !in r && '>' !in r && '"' !in r && '\'' !in r
    ensures c !in "&<>\"'" ==> r == [c]
  {
    match c
    case '&' => "&amp;"
    case '<' => "&lt;"
    case '>' => "&gt;"
    case '"' => "&quot;"
    case '\'' => "&#039;"
    case _ => [c]
  }

  /** Escaping character by character. */
  function EscapeEach(s: string): (r: string)
    ensures '<' !in r && '>' !in r && '"' !in r && '\'' !in r
  {
    if s == [] then [] else EscapeChar(s[0]) + EscapeEach(s[1..])
  }

  lemma ReplaceChainConcat(a: string, b: string)
    ensures ReplaceChain(a + b) == ReplaceChain(a) + ReplaceChain(b)
  {
    var s1a, s1b := ReplaceAll(a, '&', "&amp;"), ReplaceAll(b, '&', "&amp;");
    ReplaceAllConcat(a, b, '&', "&amp;");
    var s2a, s2b := ReplaceAll(s1a, '<', "&lt;"), ReplaceAll(s1b, '<', "&lt;");
    ReplaceAllConcat(s1a, s1b, '<', "&lt;");
    var s3a, s3b := ReplaceAll(s2a, '>', "&gt;"), ReplaceAll(s2b, '>', "&gt;");
    ReplaceAllConcat(s2a, s2b, '>', "&gt;");
    var s4a, s4b := ReplaceAll(s3a, '"', "&quot;"), ReplaceAll(s3b, '"', "&quot;");
    ReplaceAllConcat(s3a, s3b, '"', "&quot;");
    ReplaceAllConcat(s4a, s4b, '\'', "&#039;");
  }

  /** On one character the chain gives that character's entity: the `&`
      put in by a later replacement is never escaped again, because `&` is
      replaced first. */
  lemma ReplaceChainChar(c: char)
    ensures ReplaceChain([c]) == EscapeChar(c)
  {
    if c == '&' {
      assert ReplaceAll([c], '&', "&amp;") == "&amp;";
    } else if c == '<' {
      assert ReplaceAll([c], '<', "&lt;") == "&lt;";
    } else if c == '>' {
      assert ReplaceAll([c], '>', "&gt;") == "&gt;";
    } else if c == '"' {
      assert ReplaceAll([c], '"', "&quot;") == "&quot;";
    } else if c == '\'' {
      assert ReplaceAll([c], '\'', "&#039;") == "&#039;";
    }
  }

  /** The chain of replacements is the per-character map `&` to `&amp;`,
      `<` to `&lt;`, `>` to `&gt;`, `"` to `&quot;` and `'` to `&#039;`. */
  lemma {:induction false} EscapeHtmlIsCharacterMap(s: string)
    ensures EscapeHtml(s) == EscapeEach(s)
  {
    if s != [] {
      assert s == [s[0]] + s[1..];
      ReplaceChainConcat([s[0]], s[1..]);
      ReplaceChainChar(s[0]);
      EscapeHtmlIsCharacterMap(s[1..]);
      if s[1..] == [] {
        assert ReplaceChain([]) == [];
      }
    }
  }

  /** Escaped text holds no `<`, `>`, `"` or `'`. */
  lemma EscapeHtmlSafe(s: string)
    ensures var r := EscapeHtml(s);
      '<' !in r && '>' !in r && '"' !in r && '\'' !in r
  {
    EscapeHtmlIsCharacterMap(s);
  }

  // ---------------------------------------------------------------------------
  // The snippet list

  datatype Snippet = Snippet(id: string, kind: string, description: string, content: string)

  /** `snippets.findIndex(s => s.id === id)`. */
  function FindSnippet(ss: seq<Snippet>, id: string): (i: int)
    ensures -1 <= i < |ss|
    ensures i == -1 <==> forall k :: 0 <= k < |ss| ==> ss[k].id != id
    ensures i >= 0 ==> ss[i].id == id && forall k :: 0 <= k < i ==> ss[k].id != id
  {
    if ss == [] then -1
    else if ss[0].id == id then 0
    else var k := FindSnippet(ss[1..], id); if k < 0 then -1 else k + 1
  }

  /** `snippets.filter(s => s.id !== id)`. */
  function WithoutId(ss: seq<Snippet>, id: string): (r: seq<Snippet>)
    ensures |r| <= |ss|
    ensures forall s :: s in r <==> s in ss && s.id != id
  {
    if ss == [] then [] else (if ss[0].id != id then [ss[0]] else []) + WithoutId(ss[1..], id)
  }

  /** Filtering keeps the relative order: it acts on each part of a list
      separately. */
  lemma {:induction false} WithoutIdConcat(a: seq<Snippet>, b: seq<Snippet>, id: string)
    ensures WithoutId(a + b, id) == WithoutId(a, id) + WithoutId(b, id)
  {
    if a == [] {
      assert a + b == b;
    } else {
      assert (a + b)[1..] == a[1..] + b;
      WithoutIdConcat(a[1..], b, id);
    }
  }

  /** A list with no snippet of that id is left as it is. */
  lemma {:induction false} WithoutIdAbsent(ss: seq<Snippet>, id: string)
    requires forall k :: 0 <= k < |ss| ==> ss[k].id != id
    ensures WithoutId(ss, id) == ss
  {
    if ss != [] {
      WithoutIdAbsent(ss[1..], id);
    }
  }

  /** What saving the modal does to the list: nothing without a description
      and a content; in edit mode, the first snippet with the edited id gets
      the new type, description and content (nothing when there is none);
      in add mode, a new snippet is appended. */
  function Saved(ss: seq<Snippet>, editId: Option<string>, kind: string, desc: string, content: string,
                 newId: string): (r: seq<Snippet>)
    ensures desc == [] || content == [] ==> r == ss
    ensures desc != [] && content != [] && (editId.None? || editId.value == []) ==>
      r == ss + [Snippet(newId, kind, desc, content)]
  {
    if desc == [] || content == [] then ss
    else if editId.Some? && editId.value != [] then
      var i := FindSnippet(ss, editId.value);
      if i < 0 then ss else ss[i := ss[i].(kind := kind, description := desc, content := content)]
    else ss + [Snippet(newId, kind, desc, content)]
  }

  /** In edit mode only the matching snippet changes, and only in its type,
      description and content; its id and its place stay. */
  lemma SavedEdit(ss: seq<Snippet>, id: string, kind: string, desc: string, content: string, newId: string)
    requires desc != [] && content != [] && id != []
    ensures var r := Saved(ss, Some(id), kind, desc, content, newId);
      var i := FindSnippet(ss, id);
      |r| == |ss|
      && (i < 0 ==> r == ss)
      && (i >= 0 ==>
            r[i] == Snippet(id, kind, desc, content) && forall k :: 0 <= k < |ss| && k != i ==> r[k] == ss[k])
  {
  }

  /** The snippet store: the list and the id the modal was opened for. */
  class SnippetStore {
    var snippets: seq<Snippet>
    var currentEditSnippetId: Option<string>

    constructor (snippets: seq<Snippet>)
      ensures this.snippets == snippets && currentEditSnippetId.None?
    {
      this.snippets := snippets;
      currentEditSnippetId := None;
    }

    /** `openSnippetModal(id)`: the mode is set first, whether or not the
        snippet is then found. */
    method OpenSnippetModal(id: Option<string>)
      modifies this`currentEditSnippetId
      ensures currentEditSnippetId == id
    {
      currentEditSnippetId := id;
    }

    /** `saveSnippetFromModal()` with the modal's three fields; `newId` is
        `Date.now().toString(36)`. Without a description or a content it
        stops before anything changes, the modal staying open. */
    method SaveSnippetFromModal(kind: string, desc: string, content: string, newId: string)
      modifies this
      ensures snippets == Saved(old(snippets), old(currentEditSnippetId), kind, desc, content, newId)
      ensures desc == [] || content == [] ==> currentEditSnippetId == old(currentEditSnippetId)
      ensures desc != [] && content != [] ==> currentEditSnippetId.None?
    {
      if desc == [] || content == [] {
        return;
      }
      if currentEditSnippetId.Some? && currentEditSnippetId.value != [] {
        var i := FindSnippet(snippets, currentEditSnippetId.value);
        if i >= 0 {
          snippets := snippets[i := snippets[i].(kind := kind, description := desc, content := content)];
        }
      } else {
        snippets := snippets + [Snippet(newId, kind, desc, content)];
      }
      currentEditSnippetId := None;
    }

    /** `deleteSnippet(id)` once the user confirms; without the confirm
        dialog (`uiReady` false) nothing changes. */
    method DeleteSnippet(id: string, uiReady: bool, confirmed: bool)
      modifies this`snippets
      ensures uiReady && confirmed ==> snippets == WithoutId(old(snippets), id)
      ensures !(uiReady && confirmed) ==> snippets == old(snippets)
    {
      if uiReady && confirmed {
        snippets := WithoutId(snippets, id);
      }
    }
  }
}
