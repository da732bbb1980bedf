/** Checking and normalising the entries of a model list. */
module ModelEntries {
  import opened ChannelModel
  import opened Text
  import opened Wrappers

  datatype Options = Options(lowercase: bool, stripPrefix: bool)

  predicate Legal(s: string) {
    '\0' !in s && '\r' !in s && '\n' !in s
  }

  /** ModelEntry.Validate: both names trimmed, or nothing. */
  function Validate(e: ModelEntry): Option<ModelEntry> {
    var model, redirect := Trim(e.model), Trim(e.redirect);
    if model != "" && Legal(model) && Legal(redirect) then Some(e.(model := model, redirect := redirect)) else None
  }

  /** An entry is valid if and only if its trimmed alias is not empty and neither trimmed name holds a NUL, a carriage
      return or a line feed; a valid entry keeps its switch and its trimmed names. */
  lemma ValidExactly(e: ModelEntry)
    ensures Validate(e).Some? <==>
              Trim(e.model) != "" && forall c :: c as int in {0, 10, 13} ==> c !in Trim(e.model) && c !in Trim(e.redirect)
    ensures Validate(e).Some? ==> Validate(e).value == ModelEntry(Trim(e.model), Trim(e.redirect), e.disabled)
  {
    assert '\0' as int == 0 && '\n' as int == 10 && '\r' as int == 13;
  }

  /** The model name sent upstream. */
  function Upstream(e: ModelEntry): string {
    if e.redirect == "" then e.model else e.redirect
  }

  function LastSlashUpTo(s: string, n: nat): (i: int)
    requires n <= |s|
    ensures -1 <= i < n && (i >= 0 ==> s[i] == '/')
    ensures forall j :: i < j < n ==> s[j] != '/'
  {
    if n == 0 then -1 else if s[n - 1] == '/' then n - 1 else LastSlashUpTo(s, n - 1)
  }

  /** strings.LastIndexByte(s, '/') */
  function LastSlash(s: string): (i: int)
    ensures -1 <= i < |s| && (i >= 0 ==> s[i] == '/')
    ensures forall j :: i < j < |s| ==> s[j] != '/'
  {
    LastSlashUpTo(s, |s|)
  }

  /** A slash with something after it. */
  predicate Prefixed(s: string) {
    0 <= LastSlash(s) < |s| - 1
  }

  /** normalizeModelAlias */
  function NormalizeAlias(name: string, options: Options): (string, bool) {
    var strip := options.stripPrefix && Prefixed(name);
    var alias := if strip then name[LastSlash(name) + 1..] else name;
    (if options.lowercase then Lower(alias) else alias, strip)
  }

  /** The alias is what stands behind the last slash, if prefixes are cut and something stands there, and otherwise the
      whole name; lower-cased if the options say so. */
  lemma AliasReads(name: string, options: Options, k: int)
    requires -1 <= k < |name| && (k >= 0 ==> name[k] == '/') && forall j :: k < j < |name| ==> name[j] != '/'
    ensures var cut := options.stripPrefix && 0 <= k < |name| - 1;
            var part := if cut then name[k + 1..] else name;
            NormalizeAlias(name, options) == (if options.lowercase then Lower(part) else part, cut)
  {
    hide Lower, LastSlash;
    assert LastSlash(name) == k;
  }

  /** A name that normalisation leaves alone. */
  predicate Settled(name: string, options: Options) {
    && (options.stripPrefix ==> !Prefixed(name))
    && (options.lowercase ==> IsLower(name))
  }

  lemma LowerKeepsSlashes(s: string)
    ensures LastSlash(Lower(s)) == LastSlash(s)
  {
    var i, j := LastSlash(s), LastSlash(Lower(s));
    if i < j {
      LowerAt(s, j);
      LowerCharKeeps(s[j]);
    } else if j < i {
      LowerAt(s, i);
      LowerCharKeeps(s[i]);
    }
  }

  /** Exactly the settled names are left alone, and one pass settles every name. */
  lemma NormalizeSettles(name: string, options: Options)
    ensures NormalizeAlias(name, options).0 == name <==> Settled(name, options)
    ensures Settled(NormalizeAlias(name, options).0, options)
    ensures name != "" ==> NormalizeAlias(name, options).0 != ""
  {
    var strip := options.stripPrefix && Prefixed(name);
    var alias := if strip then name[LastSlash(name) + 1..] else name;
    if strip {
      assert forall k :: 0 <= k < |alias| ==> alias[k] == name[LastSlash(name) + 1 + k] != '/';
    }
    LowerKeepsSlashes(alias);
    LowerFixed(alias);
  }

  /** The alias of a trimmed name is trimmed unless a prefix was cut off in front of white space. */
  lemma AliasEnds(name: string, options: Options)
    requires Trimmed(name) && name != ""
    ensures var (alias, stripped) := NormalizeAlias(name, options);
            && (!stripped ==> Trimmed(alias))
            && (stripped ==> (Trimmed(alias) <==> !IsSpace(name[LastSlash(name) + 1])))
  {
    var strip := options.stripPrefix && Prefixed(name);
    var alias := if strip then name[LastSlash(name) + 1..] else name;
    assert alias[|alias| - 1] == name[|name| - 1];
    assert alias[0] == if strip then name[LastSlash(name) + 1] else name[0];
    LowerKeepsEnds(alias);
  }

  lemma LowerKeepsEnds(s: string)
    ensures Trimmed(Lower(s)) <==> Trimmed(s)
  {
    if s != "" {
      LowerAt(s, 0);
      LowerAt(s, |s| - 1);
      LowerCharKeeps(s[0]);
      LowerCharKeeps(s[|s| - 1]);
    }
  }

  /** Trimming takes a middle part. */
  lemma TrimIsMiddle(s: string) returns (a: nat)
    ensures a + |Trim(s)| <= |s| && Trim(s) == s[a..a + |Trim(s)|]
    ensures s != "" && !IsSpace(s[|s| - 1]) ==> a + |Trim(s)| == |s|
  {
    a := LeadEnd(s, |s|);
  }

  lemma TrimmedStaysSettled(name: string, options: Options)
    requires Settled(name, options)
    ensures Settled(Trim(name), options)
  {
    var a := TrimIsMiddle(name);
    MiddleStaysSettled(name, a, Trim(name), options);
  }

  lemma MiddleStaysSettled(name: string, a: nat, t: string, options: Options)
    requires Settled(name, options) && a + |t| <= |name| && t == name[a..a + |t|]
    requires name != "" && !IsSpace(name[|name| - 1]) ==> a + |t| == |name|
    ensures Settled(t, options)
  {
    if options.stripPrefix && t != "" {
      assert forall k :: 0 <= k < |t| ==> t[k] == name[a + k];
      if LastSlash(name) >= 0 {
        assert t[|t| - 1] == name[|name| - 1] == '/';
      }
    }
    forall k | 0 <= k < |t| && options.lowercase
      ensures LowerChar(t[k]) == t[k]
    {
      assert t[k] == name[a + k];
    }
  }
}
