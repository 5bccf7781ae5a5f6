/**
 Translating file names between the client and a debug server that is not on Windows: an
 ordered list of prefix mappings, the separators and the case rules of the client, memo tables,
 and the numbers under which the client can ask for files that it cannot map.
 */
module Paths {
  import opened Options

  // ----- separators and case -----

  function Replace(s: string, a: char, b: char): (r: string)
    ensures |r| == |s|
  {
    seq(|s|, i requires 0 <= i < |s| => if s[i] == a then b else s[i])
  }

  function LowerChar(c: char): char {
    if 'A' <= c <= 'Z' then c + 32 as char else c
  }

  function Lower(s: string): (r: string)
    ensures |r| == |s|
  {
    seq(|s|, i requires 0 <= i < |s| => LowerChar(s[i]))
  }

  /** `_normcase_from_client`: on a Windows client case and the kind of slash do not matter. */
  function Normcase(windows: bool, s: string): (r: string)
    ensures |r| == |s|
  {
    if windows then Lower(Replace(s, '/', '\\')) else s
  }

  lemma ReplaceParts(s: string, t: string, a: char, b: char)
    ensures Replace(s + t, a, b) == Replace(s, a, b) + Replace(t, a, b)
  {
  }

  lemma NormcaseParts(windows: bool, s: string, t: string)
    ensures Normcase(windows, s + t) == Normcase(windows, s) + Normcase(windows, t)
  {
  }

  lemma ReplaceNothing(s: string, a: char, b: char)
    requires a !in s
    ensures Replace(s, a, b) == s
  {
  }

  /** Putting in backslashes and taking them out again leaves no backslash. */
  lemma ThereAndBack(s: string)
    ensures Replace(Replace(s, '/', '\\'), '\\', '/') == Replace(s, '\\', '/')
    ensures '\\' !in Replace(s, '\\', '/')
  {
  }

  function FixPath(path: string, sep: char): string {
    var p := if path != "" && (path[|path| - 1] == '/' || path[|path| - 1] == '\\') then path[..|path| - 1] else path;
    if sep != '/' then Replace(p, '/', sep) else p
  }

  // ----- the mappings -----

  /** A mapped prefix: as the client writes it, as it is compared, and on the server. */
  datatype Mapping = Mapping(client: string, key: string, server: string)

  /** `norm` is _NormFile; `present` says which files exist on the server. */
  datatype Env = Env(windows: bool, maps: seq<Mapping>, norm: string -> string, present: string -> bool)

  function MappingOf(windows: bool, path: (string, string)): Mapping {
    var client := FixPath(path.0, if windows then '\\' else '/');
    Mapping(client, Normcase(windows, client), FixPath(path.1, '/'))
  }

  predicate IsSlash(c: char) {
    c == '/' || c == '\\'
  }

  /** `q` is `p` without one final slash of either kind, if it has one. */
  predicate Trimmed(p: string, q: string) {
    if p != "" && IsSlash(p[|p| - 1]) then p == q + [p[|p| - 1]] else p == q
  }

  /** For a client on Windows every slash is a backslash. */
  function ClientSlashes(windows: bool, s: string): (r: string)
    ensures |r| == |s|
  {
    seq(|s|, i requires 0 <= i < |s| => if windows && s[i] == '/' then '\\' else s[i])
  }

  /** The mapping that stands for a configured pair of a client's and a server's prefix. */
  ghost predicate Describes(windows: bool, pair: (string, string), m: Mapping) {
    && Trimmed(pair.1, m.server)
    && (exists c :: Trimmed(pair.0, c) && m.client == ClientSlashes(windows, c))
    && m.key == Normcase(windows, m.client)
  }

  lemma MappingDescribes(windows: bool, pair: (string, string))
    ensures Describes(windows, pair, MappingOf(windows, pair))
  {
    var p := pair.0;
    var c := if p != "" && IsSlash(p[|p| - 1]) then p[..|p| - 1] else p;
    assert Trimmed(p, c);
    assert MappingOf(windows, pair).client == ClientSlashes(windows, c);
  }

  ghost predicate EnvOk(env: Env) {
    && (forall i | 0 <= i < |env.maps| :: env.maps[i].key == Normcase(env.windows, env.maps[i].client))
    && (forall i | 0 <= i < |env.maps| && env.windows :: '/' !in env.maps[i].client)
  }

  /** The start of setup_client_server_paths. */
  method SetUp(windows: bool, paths: seq<(string, string)>) returns (maps: seq<Mapping>)
    ensures |maps| == |paths| && forall i | 0 <= i < |paths| :: Describes(windows, paths[i], maps[i])
    ensures |maps| == |paths| && forall i | 0 <= i < |paths| :: maps[i] == MappingOf(windows, paths[i])
    ensures forall norm, present :: EnvOk(Env(windows, maps, norm, present))
  {
    maps := [];
    for i := 0 to |paths|
      invariant |maps| == i && forall k | 0 <= k < i :: maps[k] == MappingOf(windows, paths[k])
      invariant forall k | 0 <= k < i :: Describes(windows, paths[k], maps[k])
    {
      MappingDescribes(windows, paths[i]);
      maps := maps + [MappingOf(windows, paths[i])];
    }
  }

  /** The first mapping whose client prefix the compared form `name` starts with. */
  function FirstClient(maps: seq<Mapping>, name: string): (i: nat)
    ensures i <= |maps| && (i < |maps| ==> maps[i].key <= name)
    ensures forall k | 0 <= k < i :: !(maps[k].key <= name)
  {
    if maps == [] || maps[0].key <= name then 0 else 1 + FirstClient(maps[1..], name)
  }

  function FirstServer(maps: seq<Mapping>, name: string): (i: nat)
    ensures i <= |maps| && (i < |maps| ==> maps[i].server <= name)
    ensures forall k | 0 <= k < i :: !(maps[k].server <= name)
  {
    if maps == [] || maps[0].server <= name then 0 else 1 + FirstServer(maps[1..], name)
  }

  function Drop(s: string, n: nat): string {
    if n <= |s| then s[n..] else ""
  }

  function ToClientSep(env: Env, s: string): string {
    if env.windows then Replace(s, '/', '\\') else s
  }

  function ToServerSep(env: Env, s: string): string {
    if env.windows then Replace(s, '\\', '/') else s
  }

  /** The file that the client calls `filename`, as the first matching mapping gives it. */
  function OnServer(env: Env, filename: string): string {
    var name := ToClientSep(env, filename);
    var i := FirstClient(env.maps, Normcase(env.windows, name));
    ToServerSep(env, if i < |env.maps| then env.maps[i].server + Drop(name, |env.maps[i].key|) else name)
  }

  predicate IsMappedName(env: Env, filename: string) {
    FirstClient(env.maps, Normcase(env.windows, ToClientSep(env, filename))) < |env.maps|
  }

  /** _norm_file_to_server, without its memo table. */
  function ToServer(env: Env, filename: string): string {
    var translated := OnServer(env, filename);
    if IsMappedName(env, filename) || env.present(translated) then env.norm(translated) else translated
  }

  predicate IsMappedFile(env: Env, filename: string) {
    FirstServer(env.maps, env.norm(env.norm(filename))) < |env.maps|
  }

  /** _norm_file_to_client, without its memo table and with its debug output off. A file that is
      not mapped keeps its normalised name; the source assigns another only in the debug branch. */
  function ToClient(env: Env, filename: string): string {
    var proper := env.norm(filename);
    var normalized := env.norm(proper);
    var i := FirstServer(env.maps, normalized);
    ToClientSep(env, if i < |env.maps| then env.maps[i].client + Drop(proper, |env.maps[i].server|) else normalized)
  }

  /** Only backslashes are lost on the way from a Windows client. */
  lemma ServerSepKeeps(env: Env, f: string)
    ensures ToServerSep(env, f) == f <==> !env.windows || '\\' !in f
  {
    if env.windows && '\\' in f {
      ThereAndBack(f);
    }
  }

  // ----- from the server to the client and back -----

  lemma PrefixOf(p: string, s: string)
    requires p <= s
    ensures s == p + s[|p|..] && Drop(s, |p|) == s[|p|..]
  {
  }

  /** The client's name of a file under a mapped prefix. */
  lemma ClientName(env: Env, f: string)
    requires EnvOk(env) && env.norm(f) == f
    requires FirstServer(env.maps, f) < |env.maps|
    ensures var m := env.maps[FirstServer(env.maps, f)];
            var rest := f[|m.server|..];
            && f == m.server + rest
            && ToClient(env, f) == m.client + ToClientSep(env, rest)
            && ToClientSep(env, ToClient(env, f)) == ToClient(env, f)
            && m.key <= Normcase(env.windows, ToClient(env, f))
            && |m.key| == |m.client|
  {
    var m := env.maps[FirstServer(env.maps, f)];
    var rest := f[|m.server|..];
    PrefixOf(m.server, f);
    ReplaceParts(m.client, rest, '/', '\\');
    if env.windows {
      ReplaceNothing(m.client, '/', '\\');
    }
    NormcaseParts(env.windows, m.client, ToClientSep(env, rest));
  }

  /** The mapping that translates the file to the client, and the one that translates the name
      back. */
  function There(env: Env, f: string): nat {
    FirstServer(env.maps, f)
  }

  function Back(env: Env, f: string): nat {
    FirstClient(env.maps, Normcase(env.windows, ToClient(env, f)))
  }

  /** A mapping that comes before the one used and claims the name prevents the way back. */
  lemma ComesBackBy(env: Env, f: string)
    requires EnvOk(env) && env.norm(f) == f && There(env, f) < |env.maps|
    ensures Back(env, f) <= There(env, f)
    ensures Back(env, f) == There(env, f) ==> OnServer(env, ToClient(env, f)) == ToServerSep(env, f)
    ensures env.maps[Back(env, f)].server + Drop(ToClient(env, f), |env.maps[Back(env, f)].key|) ==
            env.maps[Back(env, f)].server + ToClient(env, f)[|env.maps[Back(env, f)].key|..]
  {
    ClientName(env, f);
    var m := env.maps[There(env, f)];
    var rest := f[|m.server|..];
    if Back(env, f) == There(env, f) {
      assert Drop(ToClient(env, f), |m.key|) == ToClientSep(env, rest);
      ReplaceParts(m.server, ToClientSep(env, rest), '\\', '/');
      ReplaceParts(m.server, rest, '\\', '/');
      ThereAndBack(rest);
    }
  }

  /** A normalised file under a mapped prefix comes back if no earlier mapping claims its client
      name and, for a Windows client, it has no backslash. */
  lemma FileComesBack(env: Env, f: string)
    requires EnvOk(env) && env.norm(f) == f && There(env, f) < |env.maps|
    requires Back(env, f) == There(env, f)
    requires env.windows ==> '\\' !in f
    ensures ToServer(env, ToClient(env, f)) == f
  {
    ClientName(env, f);
    ComesBackBy(env, f);
    ServerSepKeeps(env, f);
  }

  /** With normalisation that changes nothing, and server prefixes without backslashes, it comes
      back exactly then. */
  lemma FileComesBackIff(env: Env, f: string)
    requires EnvOk(env) && There(env, f) < |env.maps|
    requires forall x :: env.norm(x) == x
    requires forall i | 0 <= i < |env.maps| && env.windows :: '\\' !in env.maps[i].server
    ensures ToServer(env, ToClient(env, f)) == f <==>
            Back(env, f) == There(env, f) && (env.windows ==> '\\' !in f)
  {
    ClientName(env, f);
    ComesBackBy(env, f);
    if ToServer(env, ToClient(env, f)) == f {
      var c := ToClient(env, f);
      var b := env.maps[Back(env, f)];
      assert f == ToServerSep(env, b.server + c[|b.key|..]);
      if env.windows {
        ThereAndBack(b.server + c[|b.key|..]);
      }
      ReplaceParts(b.server, c[|b.key|..], '\\', '/');
      ServerSepKeeps(env, b.server);
      assert f == b.server + ToServerSep(env, c[|b.key|..]);
      assert b.server <= f;
    } else if Back(env, f) == There(env, f) && (env.windows ==> '\\' !in f) {
      FileComesBack(env, f);
    }
  }

  /** No client prefix, as compared, is a prefix of another. */
  predicate Apart(maps: seq<Mapping>) {
    forall i, j | 0 <= i < |maps| && 0 <= j < |maps| && i != j :: !(maps[i].key <= maps[j].key)
  }

  lemma PrefixesOfOne(p: string, q: string, s: string)
    requires p <= s && q <= s
    ensures p <= q || q <= p
  {
    if |p| <= |q| {
      assert p == s[..|p|] == q[..|p|];
    } else {
      assert q == s[..|q|] == p[..|q|];
    }
  }

  /** When the client prefixes are apart, every normalised file under a mapped prefix comes back,
      for a Unix client, and for a Windows client exactly if it has no backslash. */
  lemma ApartComesBack(env: Env, f: string)
    requires EnvOk(env) && env.norm(f) == f && There(env, f) < |env.maps| && Apart(env.maps)
    ensures ToServer(env, ToClient(env, f)) == env.norm(ToServerSep(env, f))
    ensures !env.windows || '\\' !in f ==> ToServer(env, ToClient(env, f)) == f
    ensures env.windows && '\\' in f && env.norm(ToServerSep(env, f)) == ToServerSep(env, f) ==>
              ToServer(env, ToClient(env, f)) != f
  {
    ClientName(env, f);
    ComesBackBy(env, f);
    var i, j := There(env, f), Back(env, f);
    PrefixesOfOne(env.maps[i].key, env.maps[j].key, Normcase(env.windows, ToClient(env, f)));
    assert i == j;
    ServerSepKeeps(env, f);
  }

  /** Nested client prefixes, the outer one listed first: a file of the inner one does not come
      back. */
  lemma NestedDoesNotComeBack(env: Env)
    requires env == Env(false, [Mapping("/c", "/c", "/s"), Mapping("/c/t", "/c/t", "/u")], x => x, x => false)
    ensures EnvOk(env)
    ensures ToClient(env, "/u/a") == "/c/t/a"
    ensures ToServer(env, "/c/t/a") == "/s/t/a"
  {
    var f, c := "/u/a", "/c/t/a";
    assert FirstServer(env.maps, f) == 1 by {
      assert f[..2] == "/u" && "/s" != f[..2];
    }
    assert f[2..] == "/a" && "/c/t" + "/a" == c;
    assert c[..2] == "/c" && "/c" <= c;
    assert FirstClient(env.maps, c) == 0;
    assert c[2..] == "/t/a" && "/s" + "/t/a" == "/s/t/a";
  }

  // ----- from the client to the server and back -----

  /** A client's name that is mapped comes back with the case and the slashes of the mapping's
      prefix, and so as it was on a Unix client, if the same mapping takes it back. */
  lemma NameComesBack(env: Env, c: string)
    requires EnvOk(env) && IsMappedName(env, c)
    requires env.norm(OnServer(env, c)) == OnServer(env, c)
    requires FirstServer(env.maps, OnServer(env, c)) ==
             FirstClient(env.maps, Normcase(env.windows, ToClientSep(env, c)))
    ensures Normcase(env.windows, ToClient(env, ToServer(env, c))) == Normcase(env.windows, c)
    ensures !env.windows ==> ToClient(env, ToServer(env, c)) == c
  {
    var name := ToClientSep(env, c);
    var m := env.maps[FirstClient(env.maps, Normcase(env.windows, name))];
    var rest := name[|m.key|..];
    PrefixOf(m.server, OnServer(env, c));
    assert OnServer(env, c) == ToServerSep(env, m.server + rest);
    ServerRest(env, m.server, rest, OnServer(env, c));
    SlashesReturn(env, c, |m.key|);
    ClientParts(env, m, ToServerSep(env, rest));
    assert ToClient(env, OnServer(env, c)) == m.client + rest;
    SameCompared(env, m, c);
  }

  /** What stands behind the server's prefix. */
  lemma ServerRest(env: Env, server: string, rest: string, s: string)
    requires s == ToServerSep(env, server + rest) && server <= s
    ensures Drop(s, |server|) == ToServerSep(env, rest)
  {
    ReplaceParts(server, rest, '\\', '/');
  }

  lemma ClientParts(env: Env, m: Mapping, rest: string)
    requires env.windows ==> '/' !in m.client
    ensures ToClientSep(env, m.client + rest) == m.client + ToClientSep(env, rest)
  {
    ReplaceParts(m.client, rest, '/', '\\');
    if env.windows {
      ReplaceNothing(m.client, '/', '\\');
    }
  }

  /** The client's prefix in front of the rest compares as the name does. */
  lemma SameCompared(env: Env, m: Mapping, c: string)
    requires m.key == Normcase(env.windows, m.client) && m.key <= Normcase(env.windows, ToClientSep(env, c))
    ensures Normcase(env.windows, m.client + ToClientSep(env, c)[|m.key|..]) == Normcase(env.windows, c)
  {
    var name := ToClientSep(env, c);
    var rest := name[|m.key|..];
    assert name == name[..|m.key|] + rest;
    NormcaseParts(env.windows, m.client, rest);
    NormcaseParts(env.windows, name[..|m.key|], rest);
    assert Normcase(env.windows, name)[..|m.key|] == Normcase(env.windows, name[..|m.key|]);
    assert Normcase(env.windows, name) == Normcase(env.windows, c);
  }

  /** Without backslashes in server prefixes a mapped name comes back, up to case and slashes,
      exactly if the mapping that took it there takes it back. */
  lemma NameComesBackIff(env: Env, c: string)
    requires EnvOk(env) && IsMappedName(env, c)
    requires env.norm(OnServer(env, c)) == OnServer(env, c)
    requires forall i | 0 <= i < |env.maps| && env.windows :: '\\' !in env.maps[i].server
    ensures Normcase(env.windows, ToClient(env, ToServer(env, c))) == Normcase(env.windows, c) <==>
            FirstServer(env.maps, OnServer(env, c)) == FirstClient(env.maps, Normcase(env.windows, ToClientSep(env, c)))
  {
    var s := OnServer(env, c);
    var i, k := FirstClient(env.maps, Normcase(env.windows, ToClientSep(env, c))), FirstServer(env.maps, s);
    if k == i {
      NameComesBack(env, c);
    } else {
      ServerStays(env, c);
      ClientName(env, s);
      assert Normcase(env.windows, ToClientSep(env, c)) == Normcase(env.windows, c);
      assert !(env.maps[k].key <= Normcase(env.windows, c));
    }
  }

  /** The server's name of a mapped name starts with the prefix that was put there. */
  lemma ServerStays(env: Env, c: string)
    requires EnvOk(env) && IsMappedName(env, c)
    requires forall i | 0 <= i < |env.maps| && env.windows :: '\\' !in env.maps[i].server
    ensures FirstServer(env.maps, OnServer(env, c)) <=
            FirstClient(env.maps, Normcase(env.windows, ToClientSep(env, c)))
  {
    var name := ToClientSep(env, c);
    var m := env.maps[FirstClient(env.maps, Normcase(env.windows, name))];
    ReplaceParts(m.server, Drop(name, |m.key|), '\\', '/');
    ServerSepKeeps(env, m.server);
    assert m.server <= OnServer(env, c);
  }

  /** Nested server prefixes, the outer one listed first: a name under the inner one comes back as
      another name. */
  lemma NestedNameDoesNotComeBack(env: Env)
    requires env == Env(false, [Mapping("/c", "/c", "/s"), Mapping("/d", "/d", "/s/t")], x => x, x => false)
    ensures EnvOk(env) && IsMappedName(env, "/d/a")
    ensures ToServer(env, "/d/a") == "/s/t/a"
    ensures ToClient(env, "/s/t/a") == "/c/t/a"
  {
    var c, s := "/d/a", "/s/t/a";
    assert FirstClient(env.maps, c) == 1 by {
      assert c[..2] == "/d" && "/c" != c[..2];
    }
    assert c[2..] == "/a" && "/s/t" + "/a" == s;
    assert s[..2] == "/s" && "/s" <= s;
    assert FirstServer(env.maps, s) == 0;
    assert s[2..] == "/t/a" && "/c" + "/t/a" == "/c/t/a";
  }

  lemma SlashesReturn(env: Env, c: string, n: nat)
    requires n <= |c|
    ensures ToClientSep(env, ToServerSep(env, ToClientSep(env, c)[n..])) == ToClientSep(env, c)[n..]
  {
  }

  // ----- the translation loops -----

  lemma FirstIs(maps: seq<Mapping>, name: string, i: nat)
    requires i < |maps| && maps[i].key <= name && forall k | 0 <= k < i :: !(maps[k].key <= name)
    ensures FirstClient(maps, name) == i
  {
  }

  lemma FirstServerIs(maps: seq<Mapping>, name: string, i: nat)
    requires i < |maps| && maps[i].server <= name && forall k | 0 <= k < i :: !(maps[k].server <= name)
    ensures FirstServer(maps, name) == i
  {
  }

  /** The loop of _norm_file_to_server. */
  method PutServerPrefix(env: Env, filename: string) returns (translated: string, found: bool)
    ensures var i := FirstClient(env.maps, Normcase(env.windows, filename));
            && (found <==> i < |env.maps|)
            && translated == if found then env.maps[i].server + Drop(filename, |env.maps[i].key|) else filename
  {
    translated := filename;
    found := false;
    var translatedNormalized := Normcase(env.windows, filename);
    for i := 0 to |env.maps|
      invariant translated == filename && !found
      invariant forall k | 0 <= k < i :: !(env.maps[k].key <= translatedNormalized)
    {
      if env.maps[i].key <= translatedNormalized {
        found := true;
        translated := env.maps[i].server + filename[|env.maps[i].key|..];
        FirstIs(env.maps, translatedNormalized, i);
        return;
      }
    }
  }

  /** The loop of _norm_file_to_client. */
  method PutClientPrefix(env: Env, normalized: string, properCase: string) returns (translated: string, applied: bool)
    ensures var i := FirstServer(env.maps, normalized);
            && (applied <==> i < |env.maps|)
            && translated == if applied then env.maps[i].client + Drop(properCase, |env.maps[i].server|) else normalized
  {
    applied := false;
    translated := normalized;
    for i := 0 to |env.maps|
      invariant !applied && translated == normalized
      invariant forall k | 0 <= k < i :: !(env.maps[k].server <= normalized)
    {
      if env.maps[i].server <= normalized {
        applied := true;
        translated := env.maps[i].client + Drop(properCase, |env.maps[i].server|);
        FirstServerIs(env.maps, normalized, i);
        return;
      }
    }
  }

  /** _norm_file_to_server past its memo table, and the name it is stored under. */
  method TranslateToServer(env: Env, file: string) returns (translated: string, filename: string)
    ensures translated == ToServer(env, file) && filename == ToClientSep(env, file)
  {
    filename := file;
    if env.windows {
      filename := Replace(filename, '/', '\\');
    }
    var found;
    translated, found := PutServerPrefix(env, filename);
    if env.windows {
      translated := Replace(translated, '\\', '/');
    }
    if found || env.present(translated) {
      translated := env.norm(translated);
    }
  }

  /** _norm_file_to_client past its memo table. */
  method TranslateToClient(env: Env, filename: string) returns (translated: string, applied: bool)
    ensures translated == ToClient(env, filename) && (applied <==> IsMappedFile(env, filename))
  {
    var properCase := env.norm(filename);
    translated, applied := PutClientPrefix(env, env.norm(properCase), properCase);
    if env.windows {
      translated := Replace(translated, '/', '\\');
    }
  }

  // ----- memo tables and source references -----

  /** The translation without tables; `key` is the name under which a translation to the server
      is stored. */
  datatype Translation =
    Translation(toServer: string -> string, toClient: string -> string, isMapped: string -> bool, key: string -> string)

  function TranslationOf(env: Env): Translation {
    Translation(f => ToServer(env, f), f => ToClient(env, f), f => IsMappedFile(env, f), f => ToClientSep(env, f))
  }

  /** `firsts` has, for each client name, the server file that was first translated to it. */
  datatype Memo = Memo(
    toServer: map<string, string>,
    toClient: map<string, string>,
    references: map<string, nat>,
    sources: map<nat, string>,
    next: nat,
    firsts: map<string, string>)

  const FRESH := Memo(map[], map[], map[], map[], 1, map[])

  datatype Query = ForServer(filename: string) | ForClient(filename: string)

  function AskServer(t: Translation, m: Memo, f: string): Memo {
    if f in m.toServer then m else m.(toServer := m.toServer[t.key(f) := t.toServer(f)])
  }

  /** A client name that is new gets a reference: 0 if its file was mapped, else a new number. */
  function Refer(m: Memo, f: string, name: string, isMapped: bool): Memo {
    if name in m.references then m
    else
      var reference := if isMapped then 0 else m.next;
      m.(references := m.references[name := reference], sources := m.sources[reference := f],
         next := if isMapped then m.next else m.next + 1, firsts := m.firsts[name := f])
  }

  function AskClient(t: Translation, m: Memo, f: string): Memo {
    if f in m.toClient then m
    else Refer(m.(toClient := m.toClient[f := t.toClient(f)]), f, t.toClient(f), t.isMapped(f))
  }

  function Ask(t: Translation, m: Memo, q: Query): Memo {
    match q
    case ForServer(f) => AskServer(t, m, f)
    case ForClient(f) => AskClient(t, m, f)
  }

  function AskAll(t: Translation, m: Memo, queries: seq<Query>): Memo
    decreases |queries|
  {
    if queries == [] then m else AskAll(t, Ask(t, m, queries[0]), queries[1..])
  }

  function ReferenceOf(m: Memo, name: string): nat {
    if name in m.references then m.references[name] else 0
  }

  function SourceOf(m: Memo, reference: nat): string {
    if reference in m.sources then m.sources[reference] else ""
  }

  /** The tables agree with the translation without tables. */
  ghost predicate TablesOk(t: Translation, m: Memo) {
    && (forall f <- m.toServer :: m.toServer[f] == t.toServer(f))
    && (forall f <- m.toClient :: m.toClient[f] == t.toClient(f) && m.toClient[f] in m.references)
  }

  ghost predicate ReferenceOk(t: Translation, m: Memo, name: string)
    requires name in m.references && name in m.firsts
  {
    var reference := m.references[name];
    var f := m.firsts[name];
    && t.toClient(f) == name
    && (reference == 0 <==> t.isMapped(f))
    && (reference > 0 ==> reference < m.next && reference in m.sources && m.sources[reference] == f)
  }

  ghost predicate ReferencesOk(t: Translation, m: Memo) {
    && m.next >= 1
    && (forall name :: name in m.references <==> name in m.firsts)
    && (forall name <- m.references :: ReferenceOk(t, m, name))
    && (forall n, n' | n in m.references && n' in m.references && n != n' && m.references[n] > 0 ::
          m.references[n] != m.references[n'])
  }

  /** What is stored under the stored name is right for that name too. */
  ghost predicate KeyOk(t: Translation) {
    forall f :: t.toServer(t.key(f)) == t.toServer(f)
  }

  lemma SameOnServer(env: Env)
    ensures KeyOk(TranslationOf(env))
  {
    forall f: string ensures ToServer(env, ToClientSep(env, f)) == ToServer(env, f) {
      assert ToClientSep(env, ToClientSep(env, f)) == ToClientSep(env, f);
    }
  }

  lemma ReferOk(t: Translation, m: Memo, f: string)
    requires ReferencesOk(t, m)
    ensures ReferencesOk(t, Refer(m, f, t.toClient(f), t.isMapped(f)))
  {
    var name := t.toClient(f);
    var m' := Refer(m, f, name, t.isMapped(f));
    forall n <- m'.references ensures ReferenceOk(t, m', n) {
      if n != name {
        assert ReferenceOk(t, m, n);
      }
    }
    forall n, n' | n in m'.references && n' in m'.references && n != n' && m'.references[n] > 0
      ensures m'.references[n] != m'.references[n']
    {
      assert n in m.references ==> ReferenceOk(t, m, n);
      assert n' in m.references ==> ReferenceOk(t, m, n');
    }
  }

  lemma SameReferences(t: Translation, m: Memo, m': Memo)
    requires ReferencesOk(t, m)
    requires m' == m.(toServer := m'.toServer, toClient := m'.toClient)
    ensures ReferencesOk(t, m')
  {
    forall name <- m'.references ensures ReferenceOk(t, m', name) {
      assert ReferenceOk(t, m, name);
    }
  }

  lemma AskServerOk(t: Translation, m: Memo, f: string)
    requires KeyOk(t) && TablesOk(t, m)
    ensures TablesOk(t, AskServer(t, m, f))
  {
  }

  lemma AskClientOk(t: Translation, m: Memo, f: string)
    requires TablesOk(t, m)
    ensures TablesOk(t, AskClient(t, m, f))
  {
  }

  lemma AskOk(t: Translation, m: Memo, q: Query)
    requires KeyOk(t) && TablesOk(t, m) && ReferencesOk(t, m)
    ensures TablesOk(t, Ask(t, m, q)) && ReferencesOk(t, Ask(t, m, q))
  {
    match q {
      case ForServer(f) =>
        AskServerOk(t, m, f);
        SameReferences(t, m, AskServer(t, m, f));
      case ForClient(f) =>
        AskClientOk(t, m, f);
        var m1 := m.(toClient := m.toClient[f := t.toClient(f)]);
        SameReferences(t, m, m1);
        ReferOk(t, m1, f);
    }
  }

  lemma {:induction false} AskAllOk(t: Translation, m: Memo, queries: seq<Query>)
    requires KeyOk(t) && TablesOk(t, m) && ReferencesOk(t, m)
    ensures TablesOk(t, AskAll(t, m, queries)) && ReferencesOk(t, AskAll(t, m, queries))
    decreases |queries|
  {
    if queries != [] {
      AskOk(t, m, queries[0]);
      AskAllOk(t, Ask(t, m, queries[0]), queries[1..]);
    }
  }

  /** A reference, once given, stays, and so does the file behind a positive one. */
  ghost predicate Stays(m: Memo, m': Memo, name: string) {
    name in m.references ==>
      && name in m'.references && m'.references[name] == m.references[name]
      && (m.references[name] > 0 ==> SourceOf(m', m.references[name]) == SourceOf(m, m.references[name]))
  }

  lemma AskKeeps(t: Translation, m: Memo, q: Query, name: string)
    requires ReferencesOk(t, m)
    ensures Stays(m, Ask(t, m, q), name)
  {
    if name in m.references {
      assert ReferenceOk(t, m, name);
    }
  }

  lemma {:induction false} AskAllKeeps(t: Translation, m: Memo, queries: seq<Query>, name: string)
    requires KeyOk(t) && TablesOk(t, m) && ReferencesOk(t, m)
    ensures Stays(m, AskAll(t, m, queries), name)
    decreases |queries|
  {
    if queries != [] {
      AskKeeps(t, m, queries[0], name);
      AskOk(t, m, queries[0]);
      AskAllKeeps(t, Ask(t, m, queries[0]), queries[1..], name);
    }
  }

  // ----- over every sequence of translations -----

  function After(env: Env, queries: seq<Query>): Memo {
    AskAll(TranslationOf(env), FRESH, queries)
  }

  lemma AfterOk(env: Env, queries: seq<Query>)
    ensures TablesOk(TranslationOf(env), After(env, queries)) && ReferencesOk(TranslationOf(env), After(env, queries))
  {
    SameOnServer(env);
    AskAllOk(TranslationOf(env), FRESH, queries);
  }

  /** The memo tables always agree with the translation without them. */
  lemma TablesAgree(env: Env, queries: seq<Query>)
    ensures var m := After(env, queries);
            && (forall f <- m.toServer :: m.toServer[f] == ToServer(env, f))
            && (forall f <- m.toClient :: m.toClient[f] == ToClient(env, f))
  {
    AfterOk(env, queries);
    var m, t := After(env, queries), TranslationOf(env);
    assert forall f <- m.toServer :: m.toServer[f] == t.toServer(f);
    assert forall f <- m.toClient :: m.toClient[f] == t.toClient(f);
  }

  /** A positive reference belongs to one client name; the server file kept under it translates
      to that name; and it was given because that file is not mapped. */
  lemma ReferenceLeadsBack(env: Env, queries: seq<Query>, name: string)
    requires ReferenceOf(After(env, queries), name) > 0
    ensures var m := After(env, queries);
            && ToClient(env, SourceOf(m, ReferenceOf(m, name))) == name
            && !IsMappedFile(env, SourceOf(m, ReferenceOf(m, name)))
            && forall other :: other != name ==> ReferenceOf(m, other) != ReferenceOf(m, name)
  {
    AfterOk(env, queries);
    var t, m := TranslationOf(env), After(env, queries);
    assert ReferenceOk(t, m, name);
    assert t.toClient(SourceOf(m, ReferenceOf(m, name))) == name;
  }

  /** More translations leave a given reference, and the file behind a positive one, alone. */
  lemma ReferencesStay(env: Env, queries: seq<Query>, more: seq<Query>, name: string)
    ensures Stays(After(env, queries), AskAll(TranslationOf(env), After(env, queries), more), name)
  {
    AfterOk(env, queries);
    SameOnServer(env);
    AskAllKeeps(TranslationOf(env), After(env, queries), more, name);
  }

  /** Whatever the client is told about a file has a reference, which is positive exactly if the
      first file that got this name is not mapped. */
  lemma EveryNameHasOne(env: Env, queries: seq<Query>, f: string)
    ensures var m := AskClient(TranslationOf(env), After(env, queries), f);
            var name := ToClient(env, f);
            && name in m.references && name in m.firsts
            && ToClient(env, m.firsts[name]) == name
            && (m.references[name] > 0 <==> !IsMappedFile(env, m.firsts[name]))
  {
    AfterOk(env, queries);
    SameOnServer(env);
    var t, m := TranslationOf(env), After(env, queries);
    AskOk(t, m, ForClient(f));
    var m', name := AskClient(t, m, f), t.toClient(f);
    assert name in m'.references;
    assert ReferenceOk(t, m', name);
    assert t.toClient(m'.firsts[name]) == name;
  }

  // ----- the two functions with their tables -----

  class PathTranslator {
    const env: Env
    var toServer: map<string, string>
    var toClient: map<string, string>
    var references: map<string, nat>
    var sources: map<nat, string>
    var nextReference: nat
    ghost var firsts: map<string, string>

    constructor (env: Env)
      ensures this.env == env && Now() == FRESH && Valid()
    {
      this.env := env;
      toServer, toClient, references, sources := map[], map[], map[], map[];
      nextReference := 1;
      firsts := map[];
    }

    ghost function Now(): Memo
      reads this
    {
      Memo(toServer, toClient, references, sources, nextReference, firsts)
    }

    ghost predicate Valid()
      reads this
    {
      TablesOk(TranslationOf(env), Now()) && ReferencesOk(TranslationOf(env), Now())
    }

    /** _norm_file_to_server. */
    method NormFileToServer(file: string) returns (translated: string)
      requires Valid()
      modifies `toServer
      ensures Valid() && Now() == AskServer(TranslationOf(env), old(Now()), file)
      ensures translated == ToServer(env, file)
    {
      SameOnServer(env);
      AskOk(TranslationOf(env), Now(), ForServer(file));
      if file in toServer {
        assert toServer[file] == TranslationOf(env).toServer(file);
        return toServer[file];
      }
      var filename;
      translated, filename := TranslateToServer(env, file);
      toServer := toServer[filename := translated];
    }

    /** _norm_file_to_client. */
    method NormFileToClient(filename: string) returns (translated: string)
      requires Valid()
      modifies this
      ensures Valid() && Now() == AskClient(TranslationOf(env), old(Now()), filename)
      ensures translated == ToClient(env, filename)
    {
      SameOnServer(env);
      AskOk(TranslationOf(env), Now(), ForClient(filename));
      if filename in toClient {
        assert toClient[filename] == TranslationOf(env).toClient(filename);
        return toClient[filename];
      }
      translated := Remember(filename);
    }

    /** What _norm_file_to_client does for a file that it has not translated yet. */
    method Remember(filename: string) returns (translated: string)
      requires filename !in toClient
      modifies `toClient, `references, `sources, `nextReference, `firsts
      ensures Now() == AskClient(TranslationOf(env), old(Now()), filename)
      ensures translated == ToClient(env, filename)
    {
      var applied;
      translated, applied := TranslateToClient(env, filename);
      toClient := toClient[filename := translated];
      GiveReference(filename, translated, applied);
    }

    method GiveReference(filename: string, translated: string, pathMappingApplied: bool)
      modifies `references, `sources, `nextReference, `firsts
      ensures Now() == Refer(old(Now()), filename, translated, pathMappingApplied)
    {
      if translated !in references {
        var sourceReference := 0;
        if !pathMappingApplied {
          sourceReference := nextReference;
          nextReference := nextReference + 1;
        }
        references := references[translated := sourceReference];
        sources := sources[sourceReference := filename];
        firsts := firsts[translated := filename];
      }
    }

    /** get_client_filename_source_reference, and get_server_filename_from_source_reference of
        its result. */
    method SourceOfName(name: string) returns (reference: nat, filename: string)
      requires Valid()
      ensures reference == ReferenceOf(Now(), name) && filename == SourceOf(Now(), reference)
      ensures reference > 0 ==> ToClient(env, filename) == name
    {
      reference := if name in references then references[name] else 0;
      filename := if reference in sources then sources[reference] else "";
      if reference > 0 {
        assert ReferenceOk(TranslationOf(env), Now(), name);
        assert TranslationOf(env).toClient(filename) == name;
      }
    }
  }
}
