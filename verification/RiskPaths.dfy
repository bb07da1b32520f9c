/** Which tasks need a risk approval: those that declare a file in a risky or forbidden place. */
module RiskPaths {

  /** Backslashes as slashes, without back quotes and spaces at the ends. */
  function Slashed(c: char): char {
    if c == '\\' then '/' else c
  }

  function ReplaceBackslashes(s: string): (r: string)
    ensures |r| == |s| && forall i :: 0 <= i < |s| ==> r[i] == Slashed(s[i])
  {
    seq(|s|, i requires 0 <= i < |s| => Slashed(s[i]))
  }

  function TrimLeft(s: string): string {
    if s != "" && (s[0] == '`' || s[0] == ' ') then TrimLeft(s[1..]) else s
  }

  function TrimRight(s: string): string {
    if s != "" && (s[|s| - 1] == '`' || s[|s| - 1] == ' ') then TrimRight(s[..|s| - 1]) else s
  }

  function Normalize(raw: string): string {
    TrimRight(TrimLeft(ReplaceBackslashes(raw)))
  }

  predicate StartsWith(s: string, prefix: string) {
    prefix <= s
  }

  predicate EndsWith(s: string, suffix: string) {
    |suffix| <= |s| && s[|s| - |suffix|..] == suffix
  }

  /** The directory itself or anything below it. */
  predicate Inside(path: string, dir: string) {
    path == dir || StartsWith(path, dir + "/")
  }

  const RISKY_DIRS: seq<string> := ["libs/risk", "apps/supervisor", "freqtrade"]
  const FORBIDDEN_DIR: string := "configs/live"
  const FORBIDDEN_FILE: string := "freqtrade/user_data/config.live.json"
  const SECRETS_FILE: string := ".env"

  predicate Forbidden(path: string) {
    || Inside(path, FORBIDDEN_DIR) || path == FORBIDDEN_FILE
    || path == SECRETS_FILE || EndsWith(path, "/" + SECRETS_FILE)
  }

  datatype RiskReason = ForbiddenPath(path: string) | RiskyPath(path: string)

  function PathReasons(path: string, dirs: seq<string>): seq<RiskReason> {
    if dirs == [] then []
    else PathReasons(path, dirs[..|dirs| - 1]) + if Inside(path, dirs[|dirs| - 1]) then [RiskyPath(path)] else []
  }

  /** A task waits for an approval when one of its declared files is gated. */
  predicate NeedsApproval(files: seq<string>) {
    exists i :: 0 <= i < |files| && Gated(Normalize(files[i]))
  }

  /** The reasons grow file by file and place by place; a task with none is not gated. */
  method RiskyReasons(files: seq<string>) returns (reasons: seq<RiskReason>)
    ensures reasons != [] <==> NeedsApproval(files)
    ensures forall r :: r in reasons ==> exists i :: 0 <= i < |files| && Normalize(files[i]) == r.path && Gated(r.path)
  {
    hide Normalize, Inside, Forbidden, RISKY_DIRS;
    reasons := [];
    for i := 0 to |files|
      invariant reasons != [] <==> exists j :: 0 <= j < i && Gated(Normalize(files[j]))
      invariant forall r :: r in reasons ==> exists j :: 0 <= j < i && Normalize(files[j]) == r.path && Gated(r.path)
    {
      var path := Normalize(files[i]);
      if Forbidden(path) { reasons := reasons + [ForbiddenPath(path)]; }
      var risky := PathReasons(path, RISKY_DIRS);
      PathReasonsMean(path, RISKY_DIRS);
      reasons := reasons + risky;
    }
  }

  /** A path that makes its task wait for an approval. */
  predicate Gated(path: string) {
    Forbidden(path) || exists d :: d in RISKY_DIRS && Inside(path, d)
  }

  lemma {:induction false} PathReasonsMean(path: string, dirs: seq<string>)
    ensures PathReasons(path, dirs) != [] <==> exists d :: d in dirs && Inside(path, d)
    ensures forall r :: r in PathReasons(path, dirs) ==> r == RiskyPath(path)
  {
    hide Inside;
    if dirs != [] {
      var front, last := dirs[..|dirs| - 1], dirs[|dirs| - 1];
      assert dirs == front + [last];
      PathReasonsMean(path, front);
    }
  }

  // ----- places are compared by whole path segments

  function FirstSlash(s: string): (k: nat)
    ensures k <= |s| && (forall i :: 0 <= i < k ==> s[i] != '/') && (k < |s| ==> s[k] == '/')
  {
    if s == "" || s[0] == '/' then 0 else 1 + FirstSlash(s[1..])
  }

  function Segments(s: string): (r: seq<string>)
    ensures r != []
    decreases |s|
  {
    var k := FirstSlash(s);
    if k == |s| then [s] else [s[..k]] + Segments(s[k + 1..])
  }

  function Join(segments: seq<string>): string
    requires segments != []
  {
    if |segments| == 1 then segments[0] else segments[0] + "/" + Join(segments[1..])
  }

  lemma {:induction false} JoinOfSegments(s: string)
    ensures Join(Segments(s)) == s
    decreases |s|
  {
    hide Segments, FirstSlash;
    var k := FirstSlash(s);
    SegmentsUnfold(s);
    if k < |s| {
      JoinOfSegments(s[k + 1..]);
      JoinOfConcat([s[..k]], Segments(s[k + 1..]));
      assert s == s[..k] + "/" + s[k + 1..];
    }
  }

  lemma {:induction false} JoinOfConcat(a: seq<string>, b: seq<string>)
    requires a != [] && b != []
    ensures Join(a + b) == Join(a) + "/" + Join(b)
  {
    assert (a + b)[1..] == a[1..] + b;
    if |a| > 1 { JoinOfConcat(a[1..], b); }
  }

  lemma SegmentsUnfold(s: string)
    ensures var k := FirstSlash(s); Segments(s) == if k == |s| then [s] else [s[..k]] + Segments(s[k + 1..])
  {
    hide FirstSlash;
  }

  lemma {:induction false} SegmentsOfConcat(a: string, b: string)
    ensures Segments(a + "/" + b) == Segments(a) + Segments(b)
    decreases |a|
  {
    hide Segments, FirstSlash;
    var k := FirstSlash(a);
    var s := a + "/" + b;
    FirstSlashOfConcat(a, b);
    SegmentsUnfold(a);
    SegmentsUnfold(s);
    if k == |a| {
      assert s[..k] == a && s[k + 1..] == b;
    } else {
      var rest := a[k + 1..];
      assert s[..k] == a[..k] && s[k + 1..] == rest + "/" + b;
      SegmentsOfConcat(rest, b);
      assert [a[..k]] + (Segments(rest) + Segments(b)) == [a[..k]] + Segments(rest) + Segments(b);
    }
  }

  lemma FirstSlashOfConcat(a: string, b: string)
    ensures FirstSlash(a + "/" + b) == FirstSlash(a)
  {
    var s, k := a + "/" + b, FirstSlash(a);
    assert s[k] == '/';
    assert forall i :: 0 <= i < k ==> s[i] == a[i];
  }

  /** A path is inside a directory exactly when the directory's segments start the path's: a name
      that merely begins with the directory's name is outside. */
  lemma InsideMeansSegments(path: string, dir: string)
    ensures Inside(path, dir) <==> Segments(dir) <= Segments(path)
  {
    hide Segments;
    if path != dir && StartsWith(path, dir + "/") {
      var rest := path[|dir| + 1..];
      assert path == dir + "/" + rest;
      SegmentsOfConcat(dir, rest);
    }
    if Segments(dir) <= Segments(path) {
      var d, p := Segments(dir), Segments(path);
      JoinOfSegments(dir);
      JoinOfSegments(path);
      if d != p {
        var rest := p[|d|..];
        assert p == d + rest && rest != [];
        JoinOfConcat(d, rest);
        assert path == dir + "/" + Join(rest);
      }
    }
  }

  /** A file is a secrets file exactly when its last segment is that name. */
  lemma SecretsFileMeansLastSegment(path: string)
    ensures path == SECRETS_FILE || EndsWith(path, "/" + SECRETS_FILE)
       <==> Segments(path)[|Segments(path)| - 1] == SECRETS_FILE
  {
    hide Segments;
    SecretsSegments();
    var p := Segments(path);
    JoinOfSegments(path);
    if EndsWith(path, "/" + SECRETS_FILE) {
      var front := path[..|path| - |SECRETS_FILE| - 1];
      assert path == front + "/" + SECRETS_FILE;
      SegmentsOfConcat(front, SECRETS_FILE);
    }
    if p[|p| - 1] == SECRETS_FILE && |p| > 1 {
      var front := p[..|p| - 1];
      assert p == front + [SECRETS_FILE];
      JoinOfConcat(front, [SECRETS_FILE]);
      assert path == Join(front) + "/" + SECRETS_FILE;
    }
  }

  lemma SecretsSegments()
    ensures Segments(SECRETS_FILE) == [SECRETS_FILE]
  {
    assert FirstSlash(SECRETS_FILE) == |SECRETS_FILE|;
  }

  // ----- what is normalised, and what is gated

  predicate Trimmable(c: char) {
    c == '`' || c == ' '
  }

  lemma {:induction false} TrimLeftMeans(s: string) returns (front: string)
    ensures s == front + TrimLeft(s) && forall i :: 0 <= i < |front| ==> Trimmable(front[i])
    ensures TrimLeft(s) != "" ==> !Trimmable(TrimLeft(s)[0])
  {
    front := "";
    if s != "" && Trimmable(s[0]) {
      front := TrimLeftMeans(s[1..]);
      front := [s[0]] + front;
    }
  }

  lemma {:induction false} TrimRightMeans(s: string) returns (back: string)
    ensures s == TrimRight(s) + back && forall i :: 0 <= i < |back| ==> Trimmable(back[i])
    ensures TrimRight(s) != "" ==> !Trimmable(TrimRight(s)[|TrimRight(s)| - 1])
  {
    back := "";
    if s != "" && Trimmable(s[|s| - 1]) {
      back := TrimRightMeans(s[..|s| - 1]);
      back := back + [s[|s| - 1]];
    }
  }

  /** A declared path loses the back quotes and spaces at its ends, and each backslash becomes a slash;
      nothing else changes. */
  lemma NormalizeMeans(raw: string) returns (from: nat, to: nat)
    ensures from <= to <= |raw| && |Normalize(raw)| == to - from
    ensures forall i :: from <= i < to ==> Normalize(raw)[i - from] == if raw[i] == '\\' then '/' else raw[i]
    ensures forall i :: 0 <= i < from || to <= i < |raw| ==> Trimmable(raw[i])
    ensures Normalize(raw) != "" ==>
      !Trimmable(Normalize(raw)[0]) && !Trimmable(Normalize(raw)[|Normalize(raw)| - 1])
  {
    hide TrimLeft, TrimRight;
    var slashed := ReplaceBackslashes(raw);
    var front := TrimLeftMeans(slashed);
    var back := TrimRightMeans(TrimLeft(slashed));
    from, to := |front|, |raw| - |back|;
    assert slashed == front + Normalize(raw) + back;
    forall i | 0 <= i < from || to <= i < |raw| ensures Trimmable(raw[i]) {
      assert slashed[i] == if i < from then front[i] else back[i - to];
    }
    forall i | from <= i < to ensures Normalize(raw)[i - from] == Slashed(raw[i]) {
      assert slashed[i] == Normalize(raw)[i - from];
    }
    if Normalize(raw) != "" { assert Normalize(raw)[0] == TrimLeft(slashed)[0]; }
  }
}
