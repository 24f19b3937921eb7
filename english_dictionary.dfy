/** The autocompletion trie of pa1/english_dictionary.py. A `TrieNode` has a
    `count` of the words added through it, a `final` flag for the node a
    word ends at, and a dict `sub` from characters to child nodes; Python
    dicts iterate in insertion order, which decides the order of the
    completions. */
module Autocomplete {
  import opened Python

  /** The value held by a node and everything below it: its count, its
      final flag, the keys of `sub` in insertion order, and the children. */
  datatype Trie = Trie(count: int, final: bool, keys: seq<char>, sub: map<char, Trie>)

  /** `TrieNode()`: count 0, not final, no children. */
  const Empty: Trie := Trie(0, false, [], map[])

  /** No character twice in a sequence. */
  predicate Distinct(ks: seq<char>)
  {
    forall i, j :: 0 <= i < j < |ks| ==> ks[i] != ks[j]
  }

  /** The key order lists every child exactly once, at every node. */
  ghost predicate WellFormed(t: Trie)
  {
    && Distinct(t.keys)
    && (forall c :: c in t.sub <==> c in t.keys)
    && (forall c :: c in t.sub ==> WellFormed(t.sub[c]))
  }

  /** Every node without children ends a word, at every node. */
  ghost predicate LeavesFinal(t: Trie)
  {
    && (t.sub.Keys == {} ==> t.final)
    && (forall c :: c in t.sub ==> LeavesFinal(t.sub[c]))
  }

  /** `_add_word_helper(word, i)` on a node holding t: below the node the
      rest of the word is added, one node per character, created when the
      character is new; the end node becomes final; every node on the way
      counts one more word. */
  function Insert(t: Trie, word: string, i: nat): Trie
    requires i <= |word|
    decreases |word| - i
  {
    if i < |word| then
      var c := word[i];
      var child := if c in t.sub then t.sub[c] else Empty;
      var keys := if c in t.sub then t.keys else t.keys + [c];
      Trie(t.count + 1, t.final, keys, t.sub[c := Insert(child, word, i + 1)])
    else
      Trie(t.count + 1, true, t.keys, t.sub)
  }

  /** `is_word_helper(w, node, i)`: follow w from position i; the word is
      there when the node reached is final. */
  function IsWordFrom(t: Trie, w: string, i: nat): bool
    requires i <= |w|
    decreases |w| - i
  {
    if i == |w| then t.final
    else if w[i] in t.sub then IsWordFrom(t.sub[w[i]], w, i + 1)
    else false
  }

  /** `is_word(w)` on a trie rooted at t. */
  function HasWord(t: Trie, w: string): bool
  {
    IsWordFrom(t, w, 0)
  }

  /** The node reached from t along the path p, if the path exists. */
  function NodeAt(t: Trie, p: string): Option<Trie>
    decreases |p|
  {
    if p == [] then Some(t)
    else if p[0] in t.sub then NodeAt(t.sub[p[0]], p[1..])
    else None
  }

  /** The count of the node at p, or 0 where there is no node yet. */
  function CountAt(t: Trie, p: string): int
  {
    match NodeAt(t, p)
    case None => 0
    case Some(n) => n.count
  }

  /** The path p leads from t to a node without children. */
  ghost predicate LeafAt(t: Trie, p: string)
  {
    NodeAt(t, p).Some? && NodeAt(t, p).value.sub.Keys == {}
  }

  /** `[char + suff for suff in child_suff]`. */
  function Prepend(c: char, ss: seq<string>): (r: seq<string>)
    ensures |r| == |ss| && forall i :: 0 <= i < |ss| ==> r[i] == [c] + ss[i]
  {
    if ss == [] then [] else Prepend(c, ss[..|ss| - 1]) + [[c] + ss[|ss| - 1]]
  }

  /** `get_completion_suffix(parent)`: `['']` for a node without children;
      otherwise every child's suffixes, each behind its character, child
      by child in key order. */
  function Suffixes(t: Trie): seq<string>
    decreases t, |t.keys| + 1
  {
    if t.sub.Keys == {} then [""] else SuffixesOf(t, t.keys)
  }

  /** The `complete` list of `get_completion_suffix` after the keys ks. */
  function SuffixesOf(t: Trie, ks: seq<char>): seq<string>
    decreases t, |ks|
  {
    if ks == [] then []
    else
      var c := ks[|ks| - 1];
      SuffixesOf(t, ks[..|ks| - 1]) + (if c in t.sub then Prepend(c, Suffixes(t.sub[c])) else [])
  }

  /** `get_completion_node(parent, suffix, i)`: follow the prefix from
      position i, then list the suffixes below; [] when the path breaks. */
  function CompletionNode(t: Trie, prefix: string, i: nat): seq<string>
    requires i <= |prefix|
    decreases |prefix| - i
  {
    if i == |prefix| then Suffixes(t)
    else if prefix[i] in t.sub then CompletionNode(t.sub[prefix[i]], prefix, i + 1)
    else []
  }

  /** `[suff for suff in suffs if suff]`. */
  function NonEmpty(ss: seq<string>): (r: seq<string>)
    ensures forall s :: s in r <==> s in ss && s != ""
  {
    if ss == [] then []
    else NonEmpty(ss[..|ss| - 1]) + (if ss[|ss| - 1] != "" then [ss[|ss| - 1]] else [])
  }

  /** `get_completions(prefix)` on a trie rooted at t. */
  function Completions(t: Trie, prefix: string): (r: seq<string>)
    ensures "" !in r
  {
    NonEmpty(CompletionNode(t, prefix, 0))
  }

  // ---------------------------------------------------------------------
  // add_word and is_word

  /** A fresh node holds no word. */
  lemma {:induction false} EmptyHasNoWord(w: string, i: nat)
    requires i <= |w|
    ensures !IsWordFrom(Empty, w, i)
  {
  }

  /** After adding the rest of `word` from position i, the rest of v from
      j is a word exactly when it is that same string or was one before. */
  lemma {:induction false} InsertWords(t: Trie, word: string, i: nat, v: string, j: nat)
    requires i <= |word| && j <= |v|
    ensures IsWordFrom(Insert(t, word, i), v, j) <==> v[j..] == word[i..] || IsWordFrom(t, v, j)
    decreases |word| - i
  {
    if i < |word| && j < |v| {
      var c := word[i];
      var child := if c in t.sub then t.sub[c] else Empty;
      if v[j] == c {
        InsertWords(child, word, i + 1, v, j + 1);
        if c !in t.sub {
          EmptyHasNoWord(v, j + 1);
        }
        assert v[j..] == word[i..] <==> v[j + 1..] == word[i + 1..] by {
          if v[j + 1..] == word[i + 1..] {
            assert v[j..] == [v[j]] + v[j + 1..] && word[i..] == [word[i]] + word[i + 1..];
          }
          if v[j..] == word[i..] {
            assert v[j + 1..] == v[j..][1..] && word[i + 1..] == word[i..][1..];
          }
        }
      } else {
        assert v[j..][0] != word[i..][0];
      }
    } else if i < |word| {
      assert |word[i..]| > 0;
    } else if j < |v| {
      assert |v[j..]| > 0;
    }
  }

  /** `add_word(w)` then `is_word(w)` is True, and it adds no other word:
      afterwards exactly the words before and w itself are words. */
  lemma AddWordWords(t: Trie, w: string, v: string)
    ensures HasWord(Insert(t, w, 0), v) <==> v == w || HasWord(t, v)
  {
    InsertWords(t, w, 0, v, 0);
    assert v[0..] == v && w[0..] == w;
  }

  /** A fresh trie has no words at all. */
  lemma EmptyNoWords(v: string)
    ensures !HasWord(Empty, v)
  {
    EmptyHasNoWord(v, 0);
  }

  /** A fresh node has only the empty path. */
  lemma EmptyNodeAt(p: string)
    ensures NodeAt(Empty, p) == if p == [] then Some(Empty) else None
  {
  }

  /** Every node on the added word's path counts one word more than it
      did (a node created on the way counted none). */
  lemma {:induction false} InsertOnPath(t: Trie, word: string, i: nat, p: string)
    requires i <= |word| && p <= word[i..]
    ensures NodeAt(Insert(t, word, i), p).Some?
    ensures CountAt(Insert(t, word, i), p) == CountAt(t, p) + 1
    decreases |word| - i
  {
    if p != [] {
      var c := word[i];
      assert p[0] == word[i..][0] == c;
      assert p[1..] <= word[i + 1..] by {
        assert word[i + 1..] == word[i..][1..];
      }
      var child := if c in t.sub then t.sub[c] else Empty;
      InsertOnPath(child, word, i + 1, p[1..]);
      if c !in t.sub {
        EmptyNodeAt(p[1..]);
      }
    }
  }

  /** Every node off the added word's path is unchanged. */
  lemma {:induction false} InsertOffPath(t: Trie, word: string, i: nat, p: string)
    requires i <= |word| && !(p <= word[i..])
    ensures NodeAt(Insert(t, word, i), p) == NodeAt(t, p)
    decreases |word| - i
  {
    assert p != [];
    if i < |word| && p[0] == word[i] {
      var c := word[i];
      assert p == [c] + p[1..] && word[i..] == [c] + word[i + 1..];
      var child := if c in t.sub then t.sub[c] else Empty;
      InsertOffPath(child, word, i + 1, p[1..]);
      if c !in t.sub {
        EmptyNodeAt(p[1..]);
      }
    }
  }

  /** Adding a word keeps every node's key order exact. */
  lemma {:induction false} InsertWellFormed(t: Trie, word: string, i: nat)
    requires i <= |word| && WellFormed(t)
    ensures WellFormed(Insert(t, word, i))
    decreases |word| - i
  {
    if i < |word| {
      var c := word[i];
      var child := if c in t.sub then t.sub[c] else Empty;
      InsertWellFormed(child, word, i + 1);
      var r := Insert(t, word, i);
      if c !in t.sub {
        assert forall a, b :: 0 <= a < b < |r.keys| ==> r.keys[a] != r.keys[b] by {
          forall a, b | 0 <= a < b < |r.keys|
            ensures r.keys[a] != r.keys[b]
          {
            if b == |t.keys| {
              assert r.keys[a] == t.keys[a] && r.keys[a] in t.sub;
            }
          }
        }
      }
    }
  }

  /** Adding a word to a fresh node, or to a trie whose childless nodes are
      all final, leaves no childless node that is not final. */
  lemma {:induction false} InsertLeavesFinal(t: Trie, word: string, i: nat)
    requires i <= |word| && (t == Empty || LeavesFinal(t))
    ensures LeavesFinal(Insert(t, word, i))
    decreases |word| - i
  {
    if i < |word| {
      var c := word[i];
      var child := if c in t.sub then t.sub[c] else Empty;
      InsertLeavesFinal(child, word, i + 1);
      assert c in Insert(t, word, i).sub;
    }
  }

  // ---------------------------------------------------------------------
  // get_completions

  /** The suffixes behind character c are c followed by a suffix. */
  lemma PrependMembers(c: char, ss: seq<string>, s: string)
    ensures s in Prepend(c, ss) <==> |s| >= 1 && s[0] == c && s[1..] in ss
  {
    var r := Prepend(c, ss);
    if s in r {
      var i :| 0 <= i < |r| && r[i] == s;
      assert s[1..] == ss[i];
    }
    if |s| >= 1 && s[0] == c && s[1..] in ss {
      var i :| 0 <= i < |ss| && ss[i] == s[1..];
      assert r[i] == s;
    }
  }

  /** What the loop over the keys ks collects: one character of ks that
      has a child, then a suffix of that child. */
  lemma {:induction false} SuffixesOfMembers(t: Trie, ks: seq<char>, s: string)
    ensures s in SuffixesOf(t, ks) <==>
              |s| >= 1 && s[0] in ks && s[0] in t.sub && s[1..] in Suffixes(t.sub[s[0]])
    decreases |ks|
  {
    if ks != [] {
      var init, c := ks[..|ks| - 1], ks[|ks| - 1];
      SuffixesOfMembers(t, init, s);
      if c in t.sub {
        PrependMembers(c, Suffixes(t.sub[c]), s);
      }
      assert ks == init + [c];
    }
  }

  /** `get_completion_suffix` lists exactly the paths from the node to a
      node without children. */
  lemma {:induction false} SuffixesAreLeaves(t: Trie, s: string)
    requires WellFormed(t)
    ensures s in Suffixes(t) <==> LeafAt(t, s)
    decreases t
  {
    if t.sub.Keys != {} {
      SuffixesOfMembers(t, t.keys, s);
      if s != [] && s[0] in t.sub {
        SuffixesAreLeaves(t.sub[s[0]], s[1..]);
      }
    } else if s != [] {
      assert s[0] !in t.sub;
    }
  }

  /** Following the prefix from i, then listing suffixes, is listing the
      suffixes of the node the rest of the prefix leads to. */
  lemma {:induction false} CompletionNodeAt(t: Trie, prefix: string, i: nat)
    requires i <= |prefix|
    ensures CompletionNode(t, prefix, i) == match NodeAt(t, prefix[i..])
                                           case None => []
                                           case Some(n) => Suffixes(n)
    decreases |prefix| - i
  {
    if i < |prefix| {
      assert prefix[i..][0] == prefix[i] && prefix[i..][1..] == prefix[i + 1..];
      if prefix[i] in t.sub {
        CompletionNodeAt(t.sub[prefix[i]], prefix, i + 1);
      }
    }
  }

  /** The path p, then the path q, is the path p + q. */
  lemma {:induction false} NodeAtConcat(t: Trie, p: string, q: string)
    ensures NodeAt(t, p + q) == match NodeAt(t, p)
                                case None => None
                                case Some(n) => NodeAt(n, q)
    decreases |p|
  {
    if p == [] {
      assert p + q == q;
    } else {
      assert (p + q)[0] == p[0] && (p + q)[1..] == p[1..] + q;
      if p[0] in t.sub {
        NodeAtConcat(t.sub[p[0]], p[1..], q);
      }
    }
  }

  /** `get_completions(prefix)` returns [] when the prefix is not a path. */
  lemma MissingPrefix(t: Trie, prefix: string)
    requires NodeAt(t, prefix).None?
    ensures Completions(t, prefix) == []
  {
    CompletionNodeAt(t, prefix, 0);
    assert prefix[0..] == prefix;
  }

  /** s is a completion of the prefix exactly when s is not empty and
      prefix + s leads to a node without children. */
  lemma CompletionsAreLeaves(t: Trie, prefix: string, s: string)
    requires WellFormed(t)
    ensures s in Completions(t, prefix) <==> s != "" && LeafAt(t, prefix + s)
  {
    CompletionNodeAt(t, prefix, 0);
    assert prefix[0..] == prefix;
    NodeAtConcat(t, prefix, s);
    match NodeAt(t, prefix)
    case None =>
    case Some(n) =>
      NodeAtWellFormed(t, prefix);
      SuffixesAreLeaves(n, s);
  }

  /** Every node of a well-formed trie is well-formed. */
  lemma {:induction false} NodeAtWellFormed(t: Trie, p: string)
    requires WellFormed(t) && NodeAt(t, p).Some?
    ensures WellFormed(NodeAt(t, p).value)
    decreases |p|
  {
    if p != [] {
      NodeAtWellFormed(t.sub[p[0]], p[1..]);
    }
  }

  /** Every node of a trie whose leaves are final has final leaves. */
  lemma {:induction false} NodeAtLeavesFinal(t: Trie, p: string)
    requires LeavesFinal(t) && NodeAt(t, p).Some?
    ensures LeavesFinal(NodeAt(t, p).value)
    decreases |p|
  {
    if p != [] {
      NodeAtLeavesFinal(t.sub[p[0]], p[1..]);
    }
  }

  /** `is_word(w)` is the final flag of the node w leads to. */
  lemma {:induction false} IsWordNodeAt(t: Trie, w: string, i: nat)
    requires i <= |w|
    ensures IsWordFrom(t, w, i) <==> NodeAt(t, w[i..]).Some? && NodeAt(t, w[i..]).value.final
    decreases |w| - i
  {
    if i < |w| {
      assert w[i..][0] == w[i] && w[i..][1..] == w[i + 1..];
      if w[i] in t.sub {
        IsWordNodeAt(t.sub[w[i]], w, i + 1);
      }
    }
  }

  /** In a trie built by adding words, every completion completes a word. */
  lemma CompletionIsWord(t: Trie, prefix: string, s: string)
    requires WellFormed(t) && (t == Empty || LeavesFinal(t)) && s in Completions(t, prefix)
    ensures HasWord(t, prefix + s)
  {
    CompletionsAreLeaves(t, prefix, s);
    if t == Empty {
      EmptyNodeAt(prefix + s);
      assert false;
    }
    NodeAtLeavesFinal(t, prefix + s);
    IsWordNodeAt(t, prefix + s, 0);
    assert (prefix + s)[0..] == prefix + s;
  }

  /** A word that is a proper prefix of another word is never offered as a
      completion: its node has a child. */
  lemma ProperPrefixNotCompleted(t: Trie, prefix: string, s: string, x: string)
    requires WellFormed(t) && x != "" && NodeAt(t, prefix + s + x).Some?
    ensures s !in Completions(t, prefix)
  {
    CompletionsAreLeaves(t, prefix, s);
    NodeAtConcat(t, prefix + s, x);
    var n := NodeAt(t, prefix + s).value;
    assert NodeAt(n, x).Some?;
    assert x[0] in n.sub;
  }


  // ---------------------------------------------------------------------
  // The words of a word file, and how many of them start with a prefix

  /** The words the constructor adds, in file order: each line stripped,
      empty lines and repeats skipped. */
  function Entries(lines: seq<string>): (r: seq<string>)
    ensures forall i, j :: 0 <= i < j < |r| ==> r[i] != r[j]
    ensures forall w :: w in r ==> w != ""
    decreases |lines|
  {
    if lines == [] then []
    else
      var init := Entries(lines[..|lines| - 1]);
      var w := Strip(lines[|lines| - 1]);
      if w != "" && w !in init then init + [w] else init
  }

  /** `[w for w in ws if w.startswith(p)]`. */
  function WithPrefix(ws: seq<string>, p: string): seq<string>
  {
    if ws == [] then []
    else WithPrefix(ws[..|ws| - 1], p) + (if p <= ws[|ws| - 1] then [ws[|ws| - 1]] else [])
  }

  /** The last line of a file decides whether one more word is added. */
  lemma EntriesStep(lines: seq<string>, k: nat)
    requires k < |lines|
    ensures var e, w := Entries(lines[..k]), Strip(lines[k]);
            Entries(lines[..k + 1]) == if w != "" && w !in e then e + [w] else e
  {
    assert lines[..k + 1][..k] == lines[..k];
  }

  /** `[w.strip() for w in lines]`. */
  function StrippedLines(lines: seq<string>): (r: seq<string>)
    ensures |r| == |lines| && forall i :: 0 <= i < |lines| ==> r[i] == Strip(lines[i])
  {
    if lines == [] then [] else StrippedLines(lines[..|lines| - 1]) + [Strip(lines[|lines| - 1])]
  }

  /** The words of a file are exactly its non-empty stripped lines. */
  lemma {:induction false} EntriesMembers(lines: seq<string>, v: string)
    ensures v in Entries(lines) <==> v != "" && v in StrippedLines(lines)
    decreases |lines|
  {
    if lines != [] {
      var k := |lines| - 1;
      EntriesStep(lines, k);
      assert lines[..k + 1] == lines;
      hide Strip;
      EntriesMembers(lines[..k], v);
      assert StrippedLines(lines) == StrippedLines(lines[..k]) + [Strip(lines[k])];
    }
  }

  /** Every word starts with the empty prefix. */
  lemma {:induction false} WithEmptyPrefix(ws: seq<string>)
    ensures WithPrefix(ws, "") == ws
    decreases |ws|
  {
    if ws != [] {
      WithEmptyPrefix(ws[..|ws| - 1]);
      assert "" <= ws[|ws| - 1];
    }
  }

  /** Adding a word counts one more word at the nodes of its prefixes and
      leaves every other count as it was. */
  lemma AddWordCounts(t: Trie, w: string, p: string)
    ensures CountAt(Insert(t, w, 0), p) == CountAt(t, p) + (if p <= w then 1 else 0)
  {
    assert w[0..] == w;
    if p <= w {
      InsertOnPath(t, w, 0, p);
    } else {
      InsertOffPath(t, w, 0, p);
    }
  }

  /** One step of the constructor's loop keeps the trie in step with the
      words added: the same words, and at every path the count of the
      words below it. */
  lemma AddEntry(t: Trie, es: seq<string>, w: string)
    requires forall v :: HasWord(t, v) <==> v in es
    requires forall p :: CountAt(t, p) == |WithPrefix(es, p)|
    ensures forall v :: HasWord(Insert(t, w, 0), v) <==> v in es + [w]
    ensures forall p :: CountAt(Insert(t, w, 0), p) == |WithPrefix(es + [w], p)|
  {
    forall v
      ensures HasWord(Insert(t, w, 0), v) <==> v in es + [w]
    {
      AddWordWords(t, w, v);
    }
    forall p
      ensures CountAt(Insert(t, w, 0), p) == |WithPrefix(es + [w], p)|
    {
      AddWordCounts(t, w, p);
      assert (es + [w])[..|es|] == es;
    }
  }

  /** `EnglishDictionary`: `words` is the value of the root `TrieNode`.
      `entries` records the words added, in order. */
  class EnglishDictionary {
    var words: Trie
    ghost var entries: seq<string>

    /** The trie is well-formed, every childless node ends a word, its
        words are the entries, and each node counts the entries below it. */
    ghost predicate Valid()
      reads this
    {
      && WellFormed(words)
      && (words == Empty || LeavesFinal(words))
      && (forall v :: HasWord(words, v) <==> v in entries)
      && (forall p :: CountAt(words, p) == |WithPrefix(entries, p)|)
    }

    /** `__init__(wordfile)`, the file given as its lines: every stripped
        line that is not empty and not yet a word is added. */
    constructor (lines: seq<string>)
      ensures Valid() && entries == Entries(lines)
      ensures words.count == |Entries(lines)|
    {
      words := Empty;
      entries := [];
      new;
      var k := 0;
      while k < |lines|
        invariant 0 <= k <= |lines|
        invariant Valid() && entries == Entries(lines[..k])
      {
        hide Entries, Strip, Insert, WithPrefix, CountAt, IsWordFrom, WellFormed, LeavesFinal;
        var w := Strip(lines[k]);
        EntriesStep(lines, k);
        if w != "" && !IsWord(w) {
          AddEntry(words, entries, w);
          InsertWellFormed(words, w, 0);
          InsertLeavesFinal(words, w, 0);
          words := Insert(words, w, 0);
          entries := entries + [w];
        }
        k := k + 1;
      }
      assert lines[..k] == lines;
      WithEmptyPrefix(entries);
      assert CountAt(words, "") == words.count;
    }

    /** `is_word(w)`: w is a word exactly when it was added. */
    function IsWord(w: string): (r: bool)
      reads this
      requires Valid()
      ensures r <==> w in entries
    {
      IsWordFrom(words, w, 0)
    }

    /** `num_completions(prefix)` as written: a stub that returns 0. */
    function NumCompletions(prefix: string): (r: int)
      ensures r == 0
    {
      0
    }

    /** `num_completions` as its documentation describes it: the count of
        the node the prefix leads to, which is the number of words that
        start with the prefix. */
    function CountCompletions(prefix: string): (r: int)
      reads this
      requires Valid()
      ensures r == |WithPrefix(entries, prefix)|
    {
      CountAt(words, prefix)
    }

    /** `get_completions(prefix)`: the suffixes below the prefix's node,
        without the empty one. */
    method GetCompletions(prefix: string) returns (r: seq<string>)
      requires Valid()
      ensures r == Completions(words, prefix)
    {
      var suffs := GetCompletionNode(words, prefix, 0);
      r := NonEmpty(suffs);
    }

    /** `get_completion_node(parent, suffix, i)`. */
    method GetCompletionNode(parent: Trie, suffix: string, i: nat) returns (r: seq<string>)
      requires WellFormed(parent) && i <= |suffix|
      ensures r == CompletionNode(parent, suffix, i)
      decreases |suffix| - i
    {
      if i == |suffix| {
        r := GetCompletionSuffix(parent);
        return;
      }
      var c := suffix[i];
      if c in parent.sub {
        r := GetCompletionNode(parent.sub[c], suffix, i + 1);
        return;
      }
      r := [];
    }

    /** `get_completion_suffix(parent)`: the loop over the children in
        insertion order, extending `complete` with each child's suffixes. */
    method GetCompletionSuffix(parent: Trie) returns (complete: seq<string>)
      requires WellFormed(parent)
      ensures complete == Suffixes(parent)
      decreases parent
    {
      if parent.sub.Keys == {} {
        return [""];
      }
      complete := [];
      var j := 0;
      while j < |parent.keys|
        invariant 0 <= j <= |parent.keys|
        invariant complete == SuffixesOf(parent, parent.keys[..j])
      {
        var c := parent.keys[j];
        var child := parent.sub[c];
        var childSuff := GetCompletionSuffix(child);
        assert parent.keys[..j + 1][..j] == parent.keys[..j];
        complete := complete + Prepend(c, childSuff);
        j := j + 1;
      }
      assert parent.keys[..j] == parent.keys;
    }
  }

  /** The stub undercounts: after a file holding only the word "a", one
      word starts with "", yet `num_completions("")` is 0. */
  lemma NumCompletionsUndercounts(d: EnglishDictionary)
    requires d.Valid() && d.entries == ["a"]
    ensures d.NumCompletions("") == 0 != 1 == d.CountCompletions("")
  {
    WithEmptyPrefix(d.entries);
  }
}
