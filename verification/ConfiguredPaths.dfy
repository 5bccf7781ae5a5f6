/**
 From the pairs of prefixes that the user configured to the files that are found and the names
 that the client is told, in terms of their characters.
 */
module ConfiguredPaths {
  import opened Paths

  /** From a client on Windows every backslash is a slash. */
  function ServerSlashes(windows: bool, s: string): (r: string)
    ensures |r| == |s|
  {
    seq(|s|, i requires 0 <= i < |s| => if windows && s[i] == '\\' then '/' else s[i])
  }

  predicate CaseOf(a: char, b: char) {
    'A' <= a <= 'Z' && b == a + 32 as char
  }

  /** What a client on Windows does not tell apart: case and the kind of slash. */
  predicate SameChar(windows: bool, a: char, b: char) {
    a == b || (windows && ((IsSlash(a) && IsSlash(b)) || CaseOf(a, b) || CaseOf(b, a)))
  }

  predicate StartsAlike(windows: bool, p: string, name: string) {
    |p| <= |name| && forall k | 0 <= k < |p| :: SameChar(windows, p[k], name[k])
  }

  lemma TrimmedOnce(p: string, q: string, r: string)
    requires Trimmed(p, q) && Trimmed(p, r)
    ensures q == r
  {
    assert p == q || q == p[..|p| - 1];
    assert p == r || r == p[..|p| - 1];
  }

  /** One final slash, of either kind, makes no difference to either prefix. */
  lemma FinalSlashMakesNoDifference(windows: bool, c: string, s: string, slash: char, m: Mapping)
    requires IsSlash(slash) && Trimmed(c, c) && Trimmed(s, s)
    ensures Describes(windows, (c + [slash], s), m) <==> Describes(windows, (c, s), m)
    ensures Describes(windows, (c, s + [slash]), m) <==> Describes(windows, (c, s), m)
  {
    forall p, q | p == c || p == s ensures Trimmed(p + [slash], q) <==> Trimmed(p, q) {
      if Trimmed(p + [slash], q) {
        TrimmedOnce(p + [slash], p, q);
      }
      if Trimmed(p, q) {
        TrimmedOnce(p, p, q);
      }
    }
  }

  /** The mappings of `env` stand for the configured pairs, in order. */
  ghost predicate Configured(env: Env, paths: seq<(string, string)>) {
    |env.maps| == |paths| && forall i | 0 <= i < |paths| :: Describes(env.windows, paths[i], env.maps[i])
  }

  lemma NormcaseChar(a: char, b: char)
    ensures LowerChar(if a == '/' then '\\' else a) == LowerChar(if b == '/' then '\\' else b) <==> SameChar(true, a, b)
  {
  }

  lemma NormcaseAt(windows: bool, s: string, k: nat)
    requires k < |s|
    ensures Normcase(windows, s)[k] == if windows then LowerChar(if s[k] == '/' then '\\' else s[k]) else s[k]
  {
  }

  /** The compared form of a prefix is a prefix of that of the name exactly if they start alike. */
  lemma ComparesAlike(windows: bool, p: string, name: string)
    ensures Normcase(windows, p) <= Normcase(windows, name) <==> StartsAlike(windows, p, name)
  {
    if |p| <= |name| {
      forall k | 0 <= k < |p|
        ensures Normcase(windows, p)[k] == Normcase(windows, name)[k] <==> SameChar(windows, p[k], name[k])
      {
        NormcaseAt(windows, p, k);
        NormcaseAt(windows, name, k);
        NormcaseChar(p[k], name[k]);
      }
    }
  }

  lemma SlashesCompareAlike(windows: bool, p: string, name: string)
    ensures StartsAlike(windows, ClientSlashes(windows, p), ClientSlashes(windows, name)) <==>
            StartsAlike(windows, p, name)
  {
    if |p| <= |name| {
      forall k | 0 <= k < |p|
        ensures SameChar(windows, ClientSlashes(windows, p)[k], ClientSlashes(windows, name)[k]) <==>
                SameChar(windows, p[k], name[k])
      {
      }
    }
  }

  /** Whether a mapping claims a client's name. */
  lemma ClaimsIff(windows: bool, pair: (string, string), m: Mapping, c: string, name: string)
    requires Describes(windows, pair, m) && Trimmed(pair.0, c)
    ensures m.key <= Normcase(windows, ClientSlashes(windows, name)) <==> StartsAlike(windows, c, name)
    ensures |m.key| == |c|
  {
    var c' :| Trimmed(pair.0, c') && m.client == ClientSlashes(windows, c');
    TrimmedOnce(pair.0, c, c');
    ComparesAlike(windows, m.client, ClientSlashes(windows, name));
    SlashesCompareAlike(windows, c, name);
  }

  /** The pair at `i` is the first whose client's prefix, without a final slash, the name starts
      with, up to case and slashes of a client on Windows. */
  ghost predicate FirstForName(windows: bool, paths: seq<(string, string)>, i: nat, name: string) {
    && (i < |paths| ==> exists c :: Trimmed(paths[i].0, c) && StartsAlike(windows, c, name))
    && forall k, c | 0 <= k < i && k < |paths| && Trimmed(paths[k].0, c) :: !StartsAlike(windows, c, name)
  }

  lemma FirstForNameIs(env: Env, paths: seq<(string, string)>, i: nat, name: string)
    requires Configured(env, paths) && i <= |paths| && FirstForName(env.windows, paths, i, name)
    ensures FirstClient(env.maps, Normcase(env.windows, ToClientSep(env, name))) == i
  {
    assert ToClientSep(env, name) == ClientSlashes(env.windows, name);
    var f := FirstClient(env.maps, Normcase(env.windows, ToClientSep(env, name)));
    if f < i {
      TrimmedSome(paths[f].0);
      var c :| Trimmed(paths[f].0, c);
      ClaimsIff(env.windows, paths[f], env.maps[f], c, name);
      assert false;
    }
    if i < f {
      var c :| Trimmed(paths[i].0, c) && StartsAlike(env.windows, c, name);
      ClaimsIff(env.windows, paths[i], env.maps[i], c, name);
    }
  }

  lemma TrimmedSome(p: string)
    ensures exists q :: Trimmed(p, q)
  {
    if p != "" && IsSlash(p[|p| - 1]) {
      assert Trimmed(p, p[..|p| - 1]);
    } else {
      assert Trimmed(p, p);
    }
  }

  /** A client's name that starts with a configured prefix leads to the file with the server's
      prefix of that pair instead, and the rest as it is, with slashes. */
  lemma ConfiguredNameIs(env: Env, paths: seq<(string, string)>, i: nat, c: string, s: string, name: string)
    requires Configured(env, paths) && i < |paths| && FirstForName(env.windows, paths, i, name)
    requires Trimmed(paths[i].0, c) && Trimmed(paths[i].1, s) && |c| <= |name|
    ensures ToServer(env, name) == env.norm(ServerSlashes(env.windows, s + name[|c|..]))
  {
    FirstForNameIs(env, paths, i, name);
    ClaimsIff(env.windows, paths[i], env.maps[i], c, name);
    TrimmedOnce(paths[i].1, s, env.maps[i].server);
    SlashesThereAndBack(env, s, name, |c|);
  }

  lemma SlashesThereAndBack(env: Env, s: string, name: string, n: nat)
    requires n <= |name|
    ensures ToServerSep(env, s + ToClientSep(env, name)[n..]) == ServerSlashes(env.windows, s + name[n..])
  {
  }

  /** So a pair without final slashes that comes first maps what is under one prefix to what is
      under the other. */
  lemma UnderPrefix(env: Env, paths: seq<(string, string)>, i: nat, rest: string)
    requires Configured(env, paths) && i < |paths| && FirstForName(env.windows, paths, i, paths[i].0 + rest)
    requires Trimmed(paths[i].0, paths[i].0) && Trimmed(paths[i].1, paths[i].1)
    ensures ToServer(env, paths[i].0 + rest) == env.norm(ServerSlashes(env.windows, paths[i].1 + rest))
    ensures !env.windows ==> ToServer(env, paths[i].0 + rest) == env.norm(paths[i].1 + rest)
  {
    var name := paths[i].0 + rest;
    assert name[|paths[i].0|..] == rest;
    ConfiguredNameIs(env, paths, i, paths[i].0, paths[i].1, name);
    assert !env.windows ==> ServerSlashes(env.windows, paths[i].1 + rest) == paths[i].1 + rest;
  }

  /** A name that starts with no configured prefix stays as it is, with slashes, and is normalised
      exactly if there is such a file. */
  lemma OtherNameIs(env: Env, paths: seq<(string, string)>, name: string)
    requires Configured(env, paths) && FirstForName(env.windows, paths, |paths|, name)
    ensures var f := ServerSlashes(env.windows, name);
            ToServer(env, name) == if env.present(f) then env.norm(f) else f
  {
    FirstForNameIs(env, paths, |paths|, name);
    assert ToServerSep(env, ToClientSep(env, name)) == ServerSlashes(env.windows, name);
  }

  /** The pair at `i` is the first whose server's prefix, without a final slash, the file starts
      with. */
  ghost predicate FirstForFile(paths: seq<(string, string)>, i: nat, file: string) {
    && (i < |paths| ==> exists s :: Trimmed(paths[i].1, s) && s <= file)
    && forall k, s | 0 <= k < i && k < |paths| && Trimmed(paths[k].1, s) :: !(s <= file)
  }

  lemma FirstForFileIs(env: Env, paths: seq<(string, string)>, i: nat, file: string)
    requires Configured(env, paths) && i <= |paths| && FirstForFile(paths, i, file)
    ensures FirstServer(env.maps, file) == i
  {
    var f := FirstServer(env.maps, file);
    assert forall k | 0 <= k < |paths| :: Trimmed(paths[k].1, env.maps[k].server);
    if i < f {
      var s :| Trimmed(paths[i].1, s) && s <= file;
      TrimmedOnce(paths[i].1, s, env.maps[i].server);
    }
  }

  /** A file whose name, normalised twice, starts with a configured prefix is told to the client
      with the client's prefix of that pair instead, as configured, and the rest of the name
      normalised once, with the slashes of the client. */
  lemma ConfiguredFileIs(env: Env, paths: seq<(string, string)>, i: nat, c: string, s: string, file: string)
    requires Configured(env, paths) && i < |paths|
    requires FirstForFile(paths, i, env.norm(env.norm(file)))
    requires Trimmed(paths[i].0, c) && Trimmed(paths[i].1, s) && |s| <= |env.norm(file)|
    ensures ToClient(env, file) == ClientSlashes(env.windows, c + env.norm(file)[|s|..])
  {
    FirstForFileIs(env, paths, i, env.norm(env.norm(file)));
    TrimmedOnce(paths[i].1, s, env.maps[i].server);
    var c' :| Trimmed(paths[i].0, c') && env.maps[i].client == ClientSlashes(env.windows, c');
    TrimmedOnce(paths[i].0, c, c');
    var rest := env.norm(file)[|s|..];
    assert ToClientSep(env, ClientSlashes(env.windows, c) + rest) == ClientSlashes(env.windows, c + rest);
  }

  /** Likewise the other way, for a normalised file. */
  lemma UnderServerPrefix(env: Env, paths: seq<(string, string)>, i: nat, rest: string)
    requires Configured(env, paths) && i < |paths| && FirstForFile(paths, i, paths[i].1 + rest)
    requires Trimmed(paths[i].0, paths[i].0) && Trimmed(paths[i].1, paths[i].1)
    requires env.norm(paths[i].1 + rest) == paths[i].1 + rest
    ensures ToClient(env, paths[i].1 + rest) == ClientSlashes(env.windows, paths[i].0 + rest)
  {
    var file := paths[i].1 + rest;
    assert file[|paths[i].1|..] == rest;
    ConfiguredFileIs(env, paths, i, paths[i].0, paths[i].1, file);
  }

  /** Another file is told by its name, normalised twice. */
  lemma OtherFileIs(env: Env, paths: seq<(string, string)>, file: string)
    requires Configured(env, paths) && FirstForFile(paths, |paths|, env.norm(env.norm(file)))
    ensures ToClient(env, file) == ClientSlashes(env.windows, env.norm(env.norm(file)))
  {
    FirstForFileIs(env, paths, |paths|, env.norm(env.norm(file)));
  }
}
