/**
 Secret paths and home paths (pkg/secrets/secrets.go): `buildSecretsPath`, `displayPath` and
 `expandHomePath`, with what they use of Go's strings and path/filepath on Unix.
 */
module Paths {
  import opened Wrappers

  // ----- words and separators --------------------------------------------------------------------

  function Split(s: string, c: char): (r: seq<string>)
    ensures |r| >= 1
  {
    if s == "" then [""]
    else if s[0] == c then [""] + Split(s[1..], c)
    else
      var r := Split(s[1..], c);
      [[s[0]] + r[0]] + r[1..]
  }

  function Joined(ws: seq<string>, c: char): string {
    if |ws| == 0 then "" else if |ws| == 1 then ws[0] else ws[0] + [c] + Joined(ws[1..], c)
  }

  predicate Free(w: string, c: char) {
    forall i :: 0 <= i < |w| ==> w[i] != c
  }

  predicate AllFree(ws: seq<string>, c: char) {
    forall i :: 0 <= i < |ws| ==> Free(ws[i], c)
  }

  lemma {:induction false} SplitFree(s: string, c: char)
    ensures AllFree(Split(s, c), c)
  {
    if s != "" {
      SplitFree(s[1..], c);
    }
  }

  lemma {:induction false} JoinSplit(s: string, c: char)
    ensures Joined(Split(s, c), c) == s
  {
    if s != "" {
      JoinSplit(s[1..], c);
    }
  }

  lemma {:induction false} SplitConcat(s: string, t: string, c: char)
    ensures Split(s + [c] + t, c) == Split(s, c) + Split(t, c)
  {
    var u := s + [c] + t;
    if s == "" {
      assert u[1..] == t;
    } else {
      assert u[1..] == s[1..] + [c] + t;
      SplitConcat(s[1..], t, c);
      LongerFirst(s[0], Split(s[1..], c), Split(t, c));
    }
  }

  lemma LongerFirst(x: char, r: seq<string>, q: seq<string>)
    requires r != []
    ensures [[x] + (r + q)[0]] + (r + q)[1..] == [[x] + r[0]] + r[1..] + q
  {
  }

  lemma {:induction false} SplitWord(w: string, c: char)
    requires Free(w, c)
    ensures Split(w, c) == [w]
  {
    if w != "" {
      SplitWord(w[1..], c);
      assert [w[0]] + w[1..] == w;
    }
  }

  lemma {:induction false} SplitJoin(ws: seq<string>, c: char)
    requires ws != [] && AllFree(ws, c)
    ensures Split(Joined(ws, c), c) == ws
  {
    SplitWord(ws[0], c);
    if |ws| > 1 {
      SplitJoin(ws[1..], c);
      SplitConcat(ws[0], Joined(ws[1..], c), c);
    }
  }

  // ----- secret paths ------------------------------------------------------------------------------

  /** White space as unicode.IsSpace has it. */
  predicate White(c: char) {
    var n := c as int;
    || 0x09 <= n <= 0x0D || n == 0x20 || n == 0x85 || n == 0xA0 || n == 0x1680 || 0x2000 <= n <= 0x200A
    || n == 0x2028 || n == 0x2029 || n == 0x202F || n == 0x205F || n == 0x3000
  }

  lemma WhiteIs(c: char)
    ensures White(c) <==>
            c in "\t\n\U{0B}\U{0C}\r \U{85}\U{A0}\U{1680}\U{2000}\U{2001}\U{2002}\U{2003}\U{2004}\U{2005}\U{2006}" +
                 "\U{2007}\U{2008}\U{2009}\U{200A}\U{2028}\U{2029}\U{202F}\U{205F}\U{3000}"
  {
  }

  function TrimLeft(s: string): string {
    if s != "" && White(s[0]) then TrimLeft(s[1..]) else s
  }

  function TrimRight(s: string): string {
    if s != "" && White(s[|s| - 1]) then TrimRight(s[..|s| - 1]) else s
  }

  function TrimSpace(s: string): string {
    TrimRight(TrimLeft(s))
  }

  function TrimAll(ws: seq<string>): seq<string> {
    seq(|ws|, i requires 0 <= i < |ws| => TrimSpace(ws[i]))
  }

  predicate Bare(s: string) {
    s == "" || (!White(s[0]) && !White(s[|s| - 1]))
  }

  lemma {:induction false} TrimLeftIs(s: string)
    ensures |TrimLeft(s)| <= |s| && TrimLeft(s) == s[|s| - |TrimLeft(s)|..]
    ensures AllWhite(s[..|s| - |TrimLeft(s)|])
    ensures TrimLeft(s) == "" || !White(TrimLeft(s)[0])
  {
    if s != "" && White(s[0]) {
      TrimLeftIs(s[1..]);
      var n := |s| - |TrimLeft(s)|;
      assert s[..n] == [s[0]] + s[1..][..n - 1];
    }
  }

  lemma {:induction false} TrimRightIs(s: string)
    ensures TrimRight(s) <= s && AllWhite(s[|TrimRight(s)|..])
    ensures TrimRight(s) == "" || !White(TrimRight(s)[|TrimRight(s)| - 1])
  {
    if s != "" && White(s[|s| - 1]) {
      var front := s[..|s| - 1];
      TrimRightIs(front);
      assert s[|TrimRight(s)|..] == front[|TrimRight(s)|..] + [s[|s| - 1]];
    }
  }

  predicate AllWhite(s: string) {
    forall i :: 0 <= i < |s| ==> White(s[i])
  }

  /** Trimming takes white space away at both ends until none is left there, and nothing else. */
  lemma TrimCuts(s: string) returns (l: string, r: string)
    ensures s == l + TrimSpace(s) + r && AllWhite(l) && AllWhite(r) && Bare(TrimSpace(s))
  {
    var t := TrimLeft(s);
    TrimLeftIs(s);
    TrimRightIs(t);
    l, r := s[..|s| - |t|], t[|TrimSpace(s)|..];
    Glued(s, l, t, TrimSpace(s), r);
    assert t != "" && TrimRight(t) != "" ==> TrimRight(t)[0] == t[0];
  }

  lemma Glued(s: string, l: string, t: string, m: string, r: string)
    requires |t| <= |s| && l == s[..|s| - |t|] && t == s[|s| - |t|..] && m <= t && r == t[|m|..]
    ensures s == l + m + r
  {
    assert s == l + t && t == m + r;
  }

  lemma TrimIs(s: string, c: char)
    ensures Bare(TrimSpace(s)) && |TrimSpace(s)| <= |s|
    ensures Bare(s) <==> TrimSpace(s) == s
    ensures Free(s, c) ==> Free(TrimSpace(s), c)
  {
    var l := TrimLeft(s);
    TrimLeftIs(s);
    TrimRightIs(l);
    assert TrimRight(l) == l[..|TrimRight(l)|] == s[|s| - |l|..|s| - |l| + |TrimRight(l)|];
    assert l != "" && TrimRight(l) != "" ==> TrimRight(l)[0] == l[0];
  }

  method BuildSecretsPath(path: string) returns (r: Option<seq<string>>)
    ensures r.None? <==> exists w :: w in Split(path, '.') && TrimSpace(w) == ""
    ensures r.Some? ==> r.value == ["data"] + TrimAll(Split(path, '.'))
  {
    var parts, full := Split(path, '.'), ["data"];
    for i := 0 to |parts|
      invariant full == ["data"] + TrimAll(parts)[..i]
      invariant forall j :: 0 <= j < i ==> TrimSpace(parts[j]) != ""
    {
      var trimmed := TrimSpace(parts[i]);
      if trimmed == "" {
        return None;
      }
      full := full + [trimmed];
    }
    return Some(full);
  }

  /** Joining the parts gives the path back exactly when every part was trimmed already; and
      in any case the joined parts are a path that yields the same parts again. */
  lemma SecretsPathRoundTrip(path: string)
    ensures var parts := Split(path, '.');
            var trimmed := TrimAll(parts);
            && (Joined(trimmed, '.') == path <==> forall i :: 0 <= i < |parts| ==> Bare(parts[i]))
            && TrimAll(Split(Joined(trimmed, '.'), '.')) == trimmed
  {
    var parts := Split(path, '.');
    var trimmed := TrimAll(parts);
    JoinSplit(path, '.');
    SplitFree(path, '.');
    forall i | 0 <= i < |parts|
      ensures |trimmed[i]| <= |parts[i]| && Free(trimmed[i], '.') && TrimSpace(trimmed[i]) == trimmed[i]
      ensures Bare(parts[i]) <==> trimmed[i] == parts[i]
    {
      TrimIs(parts[i], '.');
      TrimIs(trimmed[i], '.');
    }
    SplitJoin(trimmed, '.');
    if forall i :: 0 <= i < |parts| ==> Bare(parts[i]) {
      assert trimmed == parts;
    }
  }

  // ----- filepath on Unix ------------------------------------------------------------------------------

  predicate IsAbs(s: string) {
    s != "" && s[0] == '/'
  }

  /** The words of a path with empty words, `.` and, where possible, `..` taken away. */
  function Reduce(ws: seq<string>, rooted: bool, done: seq<string>): seq<string>
    decreases |ws|
  {
    if ws == [] then done
    else if ws[0] == "" || ws[0] == "." then Reduce(ws[1..], rooted, done)
    else if ws[0] != ".." then Reduce(ws[1..], rooted, done + [ws[0]])
    else if done != [] && done[|done| - 1] != ".." then Reduce(ws[1..], rooted, done[..|done| - 1])
    else if rooted then Reduce(ws[1..], rooted, done)
    else Reduce(ws[1..], rooted, done + [".."])
  }

  function Clean(s: string): string {
    var words := Reduce(Split(s, '/'), IsAbs(s), []);
    if IsAbs(s) then "/" + Joined(words, '/')
    else if words == [] then "."
    else Joined(words, '/')
  }

  /** filepath.Join of two elements, the first not empty. */
  function FileJoin(a: string, b: string): string
    requires a != ""
  {
    Clean(a + "/" + b)
  }

  function Words(s: string): seq<string> {
    if s == "" then [] else if s == "/" then [""] else Split(s, '/')
  }

  /** The length of the longest common prefix. */
  function Common(a: seq<string>, b: seq<string>): (n: nat)
    ensures n <= |a| && n <= |b|
  {
    if a != [] && b != [] && a[0] == b[0] then 1 + Common(a[1..], b[1..]) else 0
  }

  function Ups(n: nat): (r: seq<string>)
    ensures |r| == n && forall i :: 0 <= i < n ==> r[i] == ".."
  {
    seq(n, _ => "..")
  }

  /** filepath.Rel; None is an error. */
  function Rel(base: string, target: string): Option<string> {
    var b, t := Clean(base), Clean(target);
    if t == b then Some(".")
    else
      var b := if b == "." then "" else b;
      if IsAbs(b) != IsAbs(t) then None
      else
        var bs, ts := Words(b), Words(t);
        var k := Common(bs, ts);
        if k < |bs| && k < |ts| && bs[k] == ".." then None
        else Some(Joined(Ups(|bs| - k) + ts[k..], '/'))
  }

  // ----- home paths ------------------------------------------------------------------------------------

  predicate HasPrefix(s: string, prefix: string) {
    prefix <= s
  }

  function ExpandHome(home: string, path: string): string {
    if home == "" then path
    else if path == "~" then home
    else if HasPrefix(path, "~/") then FileJoin(home, path[2..])
    else path
  }

  function Display(home: string, path: string): string {
    if home == "" then path
    else
      var rel := Rel(home, path);
      if rel.Some? && rel.value != "." && rel.value != ".." && !HasPrefix(rel.value, "../")
      then FileJoin("~", rel.value)
      else if path == home then "~"
      else path
  }

  // ----- cleaned absolute paths ----------------------------------------------------------------------------

  predicate Normal(w: string) {
    w != "" && w != "." && w != ".." && Free(w, '/')
  }

  predicate AllNormal(ws: seq<string>) {
    forall i :: 0 <= i < |ws| ==> Normal(ws[i])
  }

  lemma {:induction false} ReduceNormal(ws: seq<string>, done: seq<string>)
    requires AllFree(ws, '/') && AllNormal(done)
    ensures AllNormal(Reduce(ws, true, done))
    decreases |ws|
  {
    if ws != [] {
      var rest := ws[1..];
      if ws[0] == "" || ws[0] == "." {
        ReduceNormal(rest, done);
      } else if ws[0] != ".." {
        ReduceNormal(rest, done + [ws[0]]);
      } else if done != [] {
        ReduceNormal(rest, done[..|done| - 1]);
      } else {
        ReduceNormal(rest, done);
      }
    }
  }

  lemma {:induction false} ReduceKeeps(ws: seq<string>, rooted: bool, done: seq<string>)
    requires AllNormal(ws)
    ensures Reduce(ws, rooted, done) == done + ws
    decreases |ws|
  {
    if ws != [] {
      ReduceKeeps(ws[1..], rooted, done + [ws[0]]);
      assert done + [ws[0]] + ws[1..] == done + ws;
    }
  }

  lemma {:induction false} ReduceConcat(ws: seq<string>, vs: seq<string>, rooted: bool, done: seq<string>)
    ensures Reduce(ws + vs, rooted, done) == Reduce(vs, rooted, Reduce(ws, rooted, done))
    decreases |ws|
  {
    if ws == [] {
      assert ws + vs == vs;
    } else {
      var rest := ws[1..];
      assert (ws + vs)[1..] == rest + vs;
      if ws[0] == "" || ws[0] == "." {
        ReduceConcat(rest, vs, rooted, done);
      } else if ws[0] != ".." {
        ReduceConcat(rest, vs, rooted, done + [ws[0]]);
      } else if done != [] && done[|done| - 1] != ".." {
        ReduceConcat(rest, vs, rooted, done[..|done| - 1]);
      } else if rooted {
        ReduceConcat(rest, vs, rooted, done);
      } else {
        ReduceConcat(rest, vs, rooted, done + [".."]);
      }
    }
  }

  /** The words a rooted path is made of. */
  function Names(s: string): seq<string> {
    Reduce(Split(s, '/'), true, [])
  }

  lemma NamesNormal(s: string)
    ensures AllNormal(Names(s))
  {
    SplitFree(s, '/');
    ReduceNormal(Split(s, '/'), []);
  }

  lemma RootedWords(ws: seq<string>)
    requires AllNormal(ws)
    ensures Words("/" + Joined(ws, '/')) == [""] + ws
  {
    var j := Joined(ws, '/');
    var s := "/" + j;
    if ws != [] {
      SplitJoin(ws, '/');
      assert s[1..] == j;
      assert Split("", '/') == [""];
    }
  }

  lemma {:induction false} CommonSplit(a: seq<string>, b: seq<string>)
    ensures a[..Common(a, b)] == b[..Common(a, b)]
    ensures a <= b ==> Common(a, b) == |a|
  {
    if a != [] && b != [] && a[0] == b[0] {
      CommonSplit(a[1..], b[1..]);
      var k := Common(a[1..], b[1..]);
      assert a[..k + 1] == [a[0]] + a[1..][..k] && b[..k + 1] == [b[0]] + b[1..][..k];
    }
  }

  lemma CleanEqual(a: string, b: string)
    requires IsAbs(a) && IsAbs(b)
    ensures Clean(a) == Clean(b) <==> Names(a) == Names(b)
  {
    NamesNormal(a);
    NamesNormal(b);
    RootedWords(Names(a));
    RootedWords(Names(b));
    assert ([""] + Names(a))[1..] == Names(a) && ([""] + Names(b))[1..] == Names(b);
  }

  lemma CommonWhole(b: seq<string>, t: seq<string>)
    requires b <= t
    ensures Common([""] + b, [""] + t) == |b| + 1
  {
    assert [""] + b <= [""] + t;
    CommonSplit([""] + b, [""] + t);
  }

  /** Up from the base to the common prefix, and down to the target. */
  function RelWords(b: seq<string>, t: seq<string>): seq<string> {
    var k := Common([""] + b, [""] + t);
    Ups(|b| + 1 - k) + ([""] + t)[k..]
  }

  lemma RelRooted(home: string, path: string)
    requires IsAbs(home) && IsAbs(path) && Names(home) != Names(path)
    ensures Rel(home, path) == Some(Joined(RelWords(Names(home), Names(path)), '/'))
  {
    var b, t := Names(home), Names(path);
    NamesNormal(home);
    NamesNormal(path);
    CleanEqual(home, path);
    RelClean(home, path, b, t);
  }

  lemma RelClean(home: string, path: string, b: seq<string>, t: seq<string>)
    requires AllNormal(b) && AllNormal(t) && Clean(home) != Clean(path)
    requires Clean(home) == "/" + Joined(b, '/') && Clean(path) == "/" + Joined(t, '/')
    ensures Rel(home, path) == Some(Joined(RelWords(b, t), '/'))
  {
    RootedWords(b);
    RootedWords(t);
    var k := Common([""] + b, [""] + t);
    assert k <= |b| ==> ([""] + b)[k] != "..";
  }

  lemma RelBelow(home: string, path: string)
    requires IsAbs(home) && IsAbs(path) && Names(home) <= Names(path) && Names(home) != Names(path)
    ensures Rel(home, path) == Some(Joined(Names(path)[|Names(home)|..], '/'))
  {
    RelRooted(home, path);
    RelWordsBelow(Names(home), Names(path));
  }

  lemma RelWordsBelow(b: seq<string>, t: seq<string>)
    requires b <= t
    ensures RelWords(b, t) == t[|b|..]
  {
    CommonWhole(b, t);
    assert Ups(0) + ([""] + t)[|b| + 1..] == t[|b|..];
  }

  lemma CommonShort(b: seq<string>, t: seq<string>)
    requires !(b <= t)
    ensures Common([""] + b, [""] + t) <= |b|
  {
    CommonLong(b, t);
  }

  lemma CommonLong(b: seq<string>, t: seq<string>)
    ensures Common([""] + b, [""] + t) == |b| + 1 ==> b <= t
  {
    var bs, ts := [""] + b, [""] + t;
    CommonSplit(bs, ts);
    if Common(bs, ts) == |bs| {
      assert forall i :: 0 <= i < |b| ==> b[i] == bs[..|bs|][i + 1] == ts[..|bs|][i + 1] == t[i];
    }
  }

  lemma RelElsewhere(home: string, path: string)
    requires IsAbs(home) && IsAbs(path) && !(Names(home) <= Names(path))
    ensures var rel := Rel(home, path); rel.Some? && (rel.value == ".." || HasPrefix(rel.value, "../"))
  {
    RelRooted(home, path);
    CommonShort(Names(home), Names(path));
  }

  /** What is shown of a path below home starts with `~/` and goes on with the rest of its words. */
  lemma ShownBelow(home: string, path: string)
    requires IsAbs(home) && IsAbs(path) && Names(home) <= Names(path) && Names(home) != Names(path)
    ensures Display(home, path) == "~/" + Joined(Names(path)[|Names(home)|..], '/')
  {
    var rest := Names(path)[|Names(home)|..];
    var rel := Joined(rest, '/');
    NamesNormal(path);
    RelBelow(home, path);
    NotUp(rest);
    BelowTilde(rest);
  }

  lemma BelowTilde(rest: seq<string>)
    requires rest != [] && AllNormal(rest)
    ensures FileJoin("~", Joined(rest, '/')) == "~/" + Joined(rest, '/')
  {
    var rel := Joined(rest, '/');
    SplitJoin(rest, '/');
    SplitWord("~", '/');
    SplitConcat("~", rel, '/');
    assert "~" + ['/'] + rel == "~" + "/" + rel == "~/" + rel;
    ReduceKeeps(["~"] + rest, false, []);
    assert [] + (["~"] + rest) == ["~"] + rest;
    assert (["~"] + rest)[1..] == rest;
  }

  lemma FirstUp(rel: string)
    ensures HasPrefix(rel, "../") ==> Split(rel, '/')[0] == ".."
  {
    if HasPrefix(rel, "../") {
      SplitWord("..", '/');
      SplitConcat("..", rel[3..], '/');
      assert rel == ".." + ['/'] + rel[3..];
    }
  }

  lemma NotUp(rest: seq<string>)
    requires rest != [] && AllNormal(rest)
    ensures var rel := Joined(rest, '/'); rel != "." && rel != ".." && !HasPrefix(rel, "../")
  {
    var rel := Joined(rest, '/');
    SplitJoin(rest, '/');
    SplitWord(".", '/');
    SplitWord("..", '/');
    FirstUp(rel);
  }

  lemma ReadBelow(home: string, path: string)
    requires IsAbs(home) && IsAbs(path) && Names(home) <= Names(path) && Names(home) != Names(path)
    ensures ExpandHome(home, "~/" + Joined(Names(path)[|Names(home)|..], '/')) == Clean(path)
  {
    var b, t := Names(home), Names(path);
    var rest := t[|b|..];
    var rel := Joined(rest, '/');
    var shown := "~/" + rel;
    assert shown[2..] == rel;
    NamesNormal(path);
    SplitJoin(rest, '/');
    SplitConcat(home, rel, '/');
    assert home + ['/'] + rel == home + "/" + rel;
    ReduceConcat(Split(home, '/'), rest, true, []);
    ReduceKeeps(rest, true, b);
    assert b + rest == t;
  }

  /** Reading a displayed path gives the path back, cleaned if it is below home; so a clean path
      comes back as it is. And a path is abbreviated exactly if it is below home or is home. */
  lemma HomePathRoundTrip(home: string, path: string)
    requires IsAbs(home) && IsAbs(path)
    ensures var below := Names(home) <= Names(path) && Names(home) != Names(path);
            && ExpandHome(home, Display(home, path)) == (if below then Clean(path) else path)
            && (HasPrefix(Display(home, path), "~") <==> below || path == home)
    ensures Clean(path) == path ==> ExpandHome(home, Display(home, path)) == path
  {
    var b, t := Names(home), Names(path);
    if b == t {
      CleanEqual(home, path);
    } else if b <= t {
      ShownBelow(home, path);
      ReadBelow(home, path);
    } else {
      RelElsewhere(home, path);
    }
  }
}
