/**
 Replacing Nix store paths by a fixed token, so that two build outputs which
 differ only in store hashes and names read the same.
 */
module StorePaths {
  import opened Common

  const PREFIX: string := "/nix/store/"
  const TOKEN: string := "/nix/store/<path>"

  predicate HashChar(c: char) { 'a' <= c <= 'z' || '0' <= c <= '9' }

  /** The characters that end a store path's name. */
  predicate Stop(c: char) {
    c == '/' || c == ' ' || c == '\t' || c == '\r' || c == '\n' || c == '\'' || c == '"' || c == '<' || c == '>'
  }

  predicate StartsWith(prefix: string, t: string) { prefix <= t }

  function NameEnd(s: string, i: nat): (e: nat)
    requires i <= |s|
    ensures i <= e <= |s| && (e < |s| ==> Stop(s[e]))
    ensures forall j :: i <= j < e ==> !Stop(s[j])
    decreases |s| - i
  {
    if i == |s| || Stop(s[i]) then i else NameEnd(s, i + 1)
  }

  /** Where the name begins: after a 32-character hash and a plain or escaped dash. */
  function NameStart(s: string): (start: Option<nat>)
    ensures start.Some? ==> 11 <= start.value <= |s| && forall c <- s[11..start.value] :: !Stop(c)
  {
    if |s| <= 43 || exists c <- s[11..43] :: !HashChar(c) then None
    else if s[43] == '-' then
      assert s[11..44] == s[11..43] + [s[43]];
      Some(44)
    else if |s| >= 45 && s[43] == '\\' && s[44] == '-' then
      assert s[11..45] == s[11..43] + [s[43], s[44]];
      Some(45)
    else None
  }

  function StorePathEnd(s: string): (end: Option<nat>)
    ensures end.Some? ==> 11 < end.value <= |s| && (end.value < |s| ==> Stop(s[end.value]))
  {
    match NameStart(s)
    case None => None
    case Some(start) =>
      var end := NameEnd(s, start);
      if end > start then Some(end) else None
  }

  /** One character at a time: the simple form the scanning loop is measured against. */
  function Normalize(t: string): string
    decreases |t|
  {
    if StartsWith(PREFIX, t) then
      match StorePathEnd(t)
      case Some(end) => TOKEN + Normalize(t[end..])
      case None => PREFIX + Normalize(t[|PREFIX|..])
    else if t == [] then []
    else [t[0]] + Normalize(t[1..])
  }

  lemma NormalizeStep(t: string)
    ensures !StartsWith(PREFIX, t) && t != [] ==> Normalize(t) == [t[0]] + Normalize(t[1..])
    ensures t == [] ==> Normalize(t) == []
    ensures StartsWith(PREFIX, t) && StorePathEnd(t).Some?
         ==> Normalize(t) == TOKEN + Normalize(t[StorePathEnd(t).value..])
    ensures StartsWith(PREFIX, t) && StorePathEnd(t).None?
         ==> |t| >= |PREFIX| && Normalize(t) == PREFIX + Normalize(t[|PREFIX|..])
  {
  }

  // ------------------------------------------------------------ the loop

  /** The first position of the prefix, as a substring search gives it. */
  function Find(t: string): (p: Option<nat>)
    ensures p.Some? ==> p.value <= |t| && StartsWith(PREFIX, t[p.value..])
  {
    if StartsWith(PREFIX, t) then Some(0)
    else if t == [] then None
    else match Find(t[1..]) case None => None case Some(p) => Some(p + 1)
  }

  lemma {:induction false} FindSkips(t: string)
    ensures Find(t).None? ==> Normalize(t) == t
    ensures Find(t).Some? ==> Normalize(t) == t[..Find(t).value] + Normalize(t[Find(t).value..])
    decreases |t|
  {
    hide Normalize, StartsWith;
    NormalizeStep(t);
    if !StartsWith(PREFIX, t) && t != [] {
      FindSkips(t[1..]);
      if Find(t).Some? {
        var p := Find(t).value;
        SkipOne(t, p);
      } else {
        assert t == [t[0]] + t[1..];
      }
    } else if t != [] {
      assert t[0..] == t && t[..0] + Normalize(t) == Normalize(t);
    }
  }

  lemma SkipOne(t: string, p: nat)
    requires 0 < p <= |t|
    ensures t[p..] == t[1..][p - 1..] && t[..p] == [t[0]] + t[1..][..p - 1]
  {
  }

  /** What one turn of the loop writes, given the candidate it stopped at. */
  lemma TurnWrites(output: string, remaining: string)
    requires Find(remaining).Some?
    ensures var c := remaining[Find(remaining).value..];
            var out := output + remaining[..Find(remaining).value];
            && (StorePathEnd(c).Some?
                ==> output + Normalize(remaining) == out + TOKEN + Normalize(c[StorePathEnd(c).value..]))
            && (StorePathEnd(c).None?
                ==> |c| >= |PREFIX| && output + Normalize(remaining) == out + PREFIX + Normalize(c[|PREFIX|..]))
  {
    var p := Find(remaining).value;
    var c := remaining[p..];
    assert StartsWith(PREFIX, c);
    hide Normalize, StartsWith, Find, StorePathEnd;
    FindSkips(remaining);
    NormalizeStep(c);
    var head := remaining[..p];
    match StorePathEnd(c)
    case Some(end) => Associate(output, head, TOKEN, Normalize(c[end..]));
    case None => Associate(output, head, PREFIX, Normalize(c[|PREFIX|..]));
  }

  lemma Regroup(a: string, b: string, c: string)
    ensures a + (b + c) == a + b + c
  {
  }

  lemma Associate(a: string, b: string, c: string, d: string)
    ensures a + (b + (c + d)) == a + b + c + d
  {
  }

  method NormalizeStorePaths(value: string) returns (output: string)
    ensures output == Normalize(value)
  {
    hide Normalize, StartsWith, Find, StorePathEnd;
    output := [];
    var remaining := value;
    var position := Find(remaining);
    while position.Some?
      invariant position == Find(remaining)
      invariant output + Normalize(remaining) == Normalize(value)
      decreases |remaining|
    {
      TurnWrites(output, remaining);
      output := output + remaining[..position.value];
      var candidate := remaining[position.value..];
      match StorePathEnd(candidate) {
        case Some(end) =>
          output := output + TOKEN;
          remaining := candidate[end..];
        case None =>
          output := output + PREFIX;
          remaining := candidate[|PREFIX|..];
      }
      position := Find(remaining);
    }
    FindSkips(remaining);
    output := output + remaining;
  }

  // -------------------------------------------------------- idempotence

  predicate Slashless(s: string) { forall c <- s :: c != '/' }

  predicate EmptyOrStop(s: string) { s == [] || Stop(s[0]) }

  lemma {:induction false} SlashlessPassesThrough(w: string, y: string)
    requires Slashless(w)
    ensures Normalize(w + y) == w + Normalize(y)
  {
    if w == [] {
      assert w + y == y;
    } else {
      assert (w + y)[0] == w[0] && w[0] in w && (w + y)[1..] == w[1..] + y;
      assert !StartsWith(PREFIX, w + y);
      assert forall c <- w[1..] :: c in w;
      hide Normalize, StartsWith;
      NormalizeStep(w + y);
      SlashlessPassesThrough(w[1..], y);
      assert [w[0]] + (w[1..] + Normalize(y)) == w + Normalize(y);
    }
  }

  /** The first characters, as many as the prefix has, are never changed. */
  lemma {:induction false} HeadUnchanged(t: string, k: nat)
    requires k <= |PREFIX|
    ensures k <= |t| <==> k <= |Normalize(t)|
    ensures k <= |t| ==> Normalize(t)[..k] == t[..k]
    decreases |t|
  {
    if StartsWith(PREFIX, t) {
      assert TOKEN[..|PREFIX|] == PREFIX;
      assert Normalize(t)[..k] == PREFIX[..k];
    } else if t != [] && k > 0 {
      HeadUnchanged(t[1..], k - 1);
      if k <= |t| { assert t[..k] == [t[0]] + t[1..][..k - 1]; }
    }
  }

  lemma NameEndStops(a: string, y: string, y': string, i: nat)
    requires i <= |a| && EmptyOrStop(y) && EmptyOrStop(y')
    ensures NameEnd(a + y, i) == NameEnd(a + y', i) <= |a|
  {
    var e, e' := NameEnd(a + y, i), NameEnd(a + y', i);
    assert forall j :: 0 <= j < |a| ==> (a + y)[j] == a[j] && (a + y')[j] == a[j];
    assert y != [] ==> (a + y)[|a|] == y[0];
    assert y' != [] ==> (a + y')[|a|] == y'[0];
  }

  lemma NameStartStops(a: string, y: string, y': string)
    requires EmptyOrStop(y) && EmptyOrStop(y') && |a| >= 11
    ensures NameStart(a + y) == NameStart(a + y')
    ensures NameStart(a + y).Some? ==> NameStart(a + y).value <= |a|
  {
    NameStartWithin(a, y);
    NameStartWithin(a, y');
  }

  lemma NameStartWithin(a: string, y: string)
    requires EmptyOrStop(y) && |a| >= 11
    ensures NameStart(a + y) == NameStart(a)
  {
    var s := a + y;
    assert forall j :: 0 <= j < |a| ==> s[j] == a[j];
    if |a| >= 43 {
      assert s[11..43] == a[11..43];
      assert |a| < |s| ==> s[|a|] == y[0];
    } else if |s| > 43 {
      assert s[11..43][|a| - 11] == y[0] && y[0] in s[11..43];
    }
  }

  /** Whether and where a path ends is settled before the first stop character. */
  lemma EndStops(a: string, y: string, y': string)
    requires EmptyOrStop(y) && EmptyOrStop(y') && |a| >= 11
    ensures StorePathEnd(a + y) == StorePathEnd(a + y')
    ensures StorePathEnd(a + y).Some? ==> StorePathEnd(a + y).value <= |a|
  {
    NameStartStops(a, y, y');
    if NameStart(a + y).Some? { NameEndStops(a, y, y', NameStart(a + y).value); }
  }

  function BeforeSlash(s: string): (w: string)
    ensures w <= s && Slashless(w) && EmptyOrStop(s[|w|..])
    ensures |w| < |s| ==> s[|w|] == '/'
  {
    if s == [] || s[0] == '/' then [] else [s[0]] + BeforeSlash(s[1..])
  }

  /** Text after an unmatched prefix is still no store path once it is normalised. */
  lemma StillUnmatched(x: string)
    ensures StorePathEnd(PREFIX + Normalize(x)).None? <==> StorePathEnd(PREFIX + x).None?
  {
    hide Normalize, StartsWith, StorePathEnd, Stop;
    var w := BeforeSlash(x);
    var y := x[|w|..];
    assert x == w + y;
    SlashlessPassesThrough(w, y);
    HeadUnchanged(y, 1);
    assert EmptyOrStop(Normalize(y)) by { assert y != [] ==> Normalize(y)[..1][0] == y[..1][0]; }
    EndStops(PREFIX + w, y, Normalize(y));
    assert PREFIX + (w + y) == (PREFIX + w) + y;
    assert PREFIX + (w + Normalize(y)) == (PREFIX + w) + Normalize(y);
  }

  lemma TokenIsUnmatched(y: string)
    ensures StartsWith(PREFIX, TOKEN + y) && StorePathEnd(TOKEN + y).None? && (TOKEN + y)[|PREFIX|..] == "<path>" + y
  {
    var t := TOKEN + y;
    assert t[..11] == PREFIX && t[11] == '<';
    if |t| > 43 { assert t[11..43][0] == '<' && '<' in t[11..43]; }
  }

  lemma TokenIsFixed(y: string)
    ensures Normalize(TOKEN + y) == TOKEN + Normalize(y)
  {
    hide Normalize, StartsWith, StorePathEnd;
    TokenIsUnmatched(y);
    NormalizeStep(TOKEN + y);
    SlashlessPassesThrough("<path>", y);
    assert PREFIX + "<path>" == TOKEN;
    Regroup(PREFIX, "<path>", Normalize(y));
  }

  /** Whether a text starts with the prefix is settled by its first eleven characters. */
  lemma PrefixFromHead(c: char, x: string, y: string)
    requires |PREFIX| - 1 <= |x| <==> |PREFIX| - 1 <= |y|
    requires |PREFIX| - 1 <= |x| ==> x[..|PREFIX| - 1] == y[..|PREFIX| - 1]
    ensures StartsWith(PREFIX, [c] + x) <==> StartsWith(PREFIX, [c] + y)
  {
  }

  /** Normalising is idempotent on every text. */
  lemma {:induction false} Idempotent(t: string)
    ensures Normalize(Normalize(t)) == Normalize(t)
    decreases |t|
  {
    if StartsWith(PREFIX, t) {
      match StorePathEnd(t)
      case Some(end) =>
        Idempotent(t[end..]);
        TokenIsFixed(Normalize(t[end..]));
      case None =>
        var x := t[|PREFIX|..];
        assert t == PREFIX + x;
        Idempotent(x);
        StillUnmatched(x);
        assert (PREFIX + Normalize(x))[|PREFIX|..] == Normalize(x);
    } else if t != [] {
      Idempotent(t[1..]);
      HeadUnchanged(t[1..], |PREFIX| - 1);
      PrefixFromHead(t[0], t[1..], Normalize(t[1..]));
      assert [t[0]] + t[1..] == t && Normalize(t)[1..] == Normalize(t[1..]);
    }
  }

  // --------------------------------------------------- path independence

  /** The prefix but for its last slash. */
  predicate Unfinished(t: string) { t == PREFIX[..|PREFIX| - 1] }

  /** Scanning `pre` does not leave an unfinished prefix at its end. */
  predicate ScanEndsClean(pre: string)
    decreases |pre|
  {
    if StartsWith(PREFIX, pre) then
      match StorePathEnd(pre)
      case Some(end) => ScanEndsClean(pre[end..])
      case None => ScanEndsClean(pre[|PREFIX|..])
    else if pre == [] then true
    else !Unfinished(pre) && ScanEndsClean(pre[1..])
  }

  /** A caller can tell from the last ten characters. */
  lemma {:induction false} CleanUnlessPrefixAtEnd(pre: string)
    requires !(|pre| >= 10 && pre[|pre| - 10..] == PREFIX[..10])
    ensures ScanEndsClean(pre)
    decreases |pre|
  {
    if StartsWith(PREFIX, pre) {
      match StorePathEnd(pre)
      case Some(end) => CleanSuffix(pre, end); CleanUnlessPrefixAtEnd(pre[end..]);
      case None => CleanSuffix(pre, |PREFIX|); CleanUnlessPrefixAtEnd(pre[|PREFIX|..]);
    } else if pre != [] {
      assert !Unfinished(pre) by { assert |pre| == 10 ==> pre[|pre| - 10..] == pre; }
      CleanSuffix(pre, 1);
      CleanUnlessPrefixAtEnd(pre[1..]);
    }
  }

  lemma CleanSuffix(pre: string, k: nat)
    requires k <= |pre|
    ensures |pre[k..]| >= 10 ==> pre[k..][|pre[k..]| - 10..] == pre[|pre| - 10..]
  {
  }

  lemma PrefixAcross(pre: string, c: string)
    requires StartsWith(PREFIX, c) && pre != []
    ensures StartsWith(PREFIX, pre + c) <==> StartsWith(PREFIX, pre) || Unfinished(pre)
  {
    var s := pre + c;
    assert forall i :: 0 <= i < |pre| ==> s[i] == pre[i];
    assert forall i :: 0 <= i < |c| ==> s[|pre| + i] == c[i];
    assert PREFIX[0] == '/' && PREFIX[1] == 'n' && PREFIX[5] == 's';
  }

  /** What a text starting with the prefix becomes after `pre`. */
  function Following(pre: string, c: string): string
    requires c != []
  {
    if ScanEndsClean(pre) then Normalize(c) else ['/'] + Normalize(c[1..])
  }

  lemma EndWithin(pre: string, c: string)
    requires StartsWith(PREFIX, pre) && StartsWith(PREFIX, c)
    ensures StorePathEnd(pre + c) == StorePathEnd(pre)
  {
    EndStops(pre, c, []);
    assert pre + [] == pre;
  }

  /** A store path after `pre` is recognised exactly when the scan of `pre` ends cleanly. */
  lemma {:induction false} ScanOver(pre: string, c: string)
    requires StartsWith(PREFIX, c)
    ensures Normalize(pre + c) == Normalize(pre) + Following(pre, c)
    decreases |pre|
  {
    assert c != [];
    hide Normalize, StartsWith, Following, TurnLength, TurnOutput, Unfinished;
    if pre == [] {
      ScanNothing(pre, c);
    } else if Unfinished(pre) {
      CrossingPrefix(pre, c);
    } else {
      ScanTurn(pre, c);
      var k := TurnLength(pre);
      ScanOver(pre[k..], c);
      Regroup(TurnOutput(pre), Normalize(pre[k..]), Following(pre[k..], c));
    }
  }

  function TurnLength(t: string): (k: nat)
    requires t != []
    ensures 0 < k <= |t|
  {
    if !StartsWith(PREFIX, t) then 1
    else if StorePathEnd(t).Some? then StorePathEnd(t).value
    else |PREFIX|
  }

  function TurnOutput(t: string): string
    requires t != []
  {
    if !StartsWith(PREFIX, t) then t[..1] else if StorePathEnd(t).Some? then TOKEN else PREFIX
  }

  lemma ScanNothing(pre: string, c: string)
    requires pre == [] && c != []
    ensures Normalize(pre + c) == Normalize(pre) + Following(pre, c)
  {
    assert pre + c == c;
    NormalizeStep(pre);
    assert [] + Normalize(c) == Normalize(c);
  }

  lemma TurnSplits(t: string)
    requires t != []
    ensures Normalize(t) == TurnOutput(t) + Normalize(t[TurnLength(t)..])
  {
  }

  /** Scanning takes the same turn on `pre` whether or not a prefix follows it. */
  lemma ScanTurn(pre: string, c: string)
    requires StartsWith(PREFIX, c) && c != [] && pre != [] && !Unfinished(pre)
    ensures var k := TurnLength(pre);
            && Normalize(pre) == TurnOutput(pre) + Normalize(pre[k..])
            && Normalize(pre + c) == TurnOutput(pre) + Normalize(pre[k..] + c)
            && Following(pre, c) == Following(pre[k..], c)
  {
    hide Normalize, StartsWith, Following, TurnLength, TurnOutput, Unfinished;
    SameTurn(pre, c);
    FollowingTurn(pre, c);
    TurnSplits(pre);
    TurnSplits(pre + c);
    var k := TurnLength(pre);
    assert (pre + c)[k..] == pre[k..] + c;
  }

  lemma SameTurn(pre: string, c: string)
    requires StartsWith(PREFIX, c) && pre != [] && !Unfinished(pre)
    ensures TurnLength(pre + c) == TurnLength(pre) && TurnOutput(pre + c) == TurnOutput(pre)
  {
    PrefixAcross(pre, c);
    assert (pre + c)[..1] == pre[..1];
    if StartsWith(PREFIX, pre) { EndWithin(pre, c); }
    hide StartsWith, StorePathEnd;
  }

  lemma FollowingTurn(pre: string, c: string)
    requires c != [] && pre != [] && !Unfinished(pre)
    ensures Following(pre, c) == Following(pre[TurnLength(pre)..], c)
  {
  }

  lemma CrossingUnmatched(c: string)
    requires StartsWith(PREFIX, c)
    ensures StorePathEnd(PREFIX[..10] + c).None?
  {
    var s := PREFIX[..10] + c;
    assert c[4] == '/' && s[14] == c[4];
    if |s| > 43 { assert s[11..43][3] == '/' && '/' in s[11..43]; }
  }

  lemma CrossingPrefix(pre: string, c: string)
    requires StartsWith(PREFIX, c) && Unfinished(pre)
    ensures Normalize(pre + c) == Normalize(pre) + Following(pre, c)
  {
    var s := pre + c;
    assert c[0] == '/' && PREFIX == pre + ['/'] && s == PREFIX + c[1..];
    assert StartsWith(PREFIX, s) && s[11..] == c[1..];
    assert Following(pre, c) == ['/'] + Normalize(c[1..]);
    CrossingUnmatched(c);
    ShortTextHasNoPrefix(pre);
    hide Normalize, StartsWith, StorePathEnd, Following, Find;
    FindSkips(pre);
    NormalizeStep(s);
    assert pre + (['/'] + Normalize(c[1..])) == (pre + ['/']) + Normalize(c[1..]);
  }

  lemma {:induction false} ShortTextHasNoPrefix(t: string)
    requires |t| < |PREFIX|
    ensures Find(t).None?
  {
  }

  /** A hash, a separator and a non-empty name. */
  predicate PathName(p: string) {
    && NameStart(PREFIX + p).Some?
    && NameStart(PREFIX + p).value < |PREFIX + p|
    && forall c <- p :: !Stop(c)
  }

  /** Spelled out: 32 lower-case letters or digits, a dash or an escaped dash, and a name without stop characters. */
  lemma PathNameForm(p: string)
    ensures PathName(p) <==>
            && |p| > 33 && (forall i :: 0 <= i < 32 ==> ('a' <= p[i] <= 'z' || '0' <= p[i] <= '9'))
            && (p[32] == '-' || (p[32] == '\\' && p[33] == '-' && |p| > 34))
            && forall i :: 0 <= i < |p| ==> p[i] !in "/ \t\r\n'\"<>"
  {
    var s := PREFIX + p;
    assert forall i :: 0 <= i < |p| ==> s[11 + i] == p[i];
    if |p| >= 32 {
      assert s[11..43] == p[..32];
      assert forall i :: 0 <= i < 32 ==> p[i] in p[..32];
      assert (forall c <- s[11..43] :: HashChar(c)) <==> forall i :: 0 <= i < 32 ==> HashChar(p[i]);
    }
    assert forall i :: 0 <= i < |p| ==> p[i] in p;
    forall i | 0 <= i < |p| ensures Stop(p[i]) <==> p[i] in "/ \t\r\n'\"<>" { Letters(p[i]); }
    hide Stop;
    assert (forall c <- p :: !Stop(c)) <==> forall i :: 0 <= i < |p| ==> !Stop(p[i]);
    assert (forall i :: 0 <= i < |p| ==> !Stop(p[i])) <==> forall i :: 0 <= i < |p| ==> p[i] !in "/ \t\r\n'\"<>";
  }

  lemma Letters(c: char)
    ensures Stop(c) <==> c in "/ \t\r\n'\"<>"
    ensures 'a' <= c <= 'z' || '0' <= c <= '9' || c == '-' || c == '\\' ==> !Stop(c)
  {
  }

  lemma SpelledName(hash: string, dash: string, name: string)
    requires |hash| == 32 && forall c <- hash :: 'a' <= c <= 'z' || '0' <= c <= '9'
    requires (dash == "-" || dash == "\\-") && name != [] && forall c <- name :: c !in "/ \t\r\n'\"<>"
    ensures PathName(hash + dash + name)
  {
    var p := hash + dash + name;
    assert forall i :: 0 <= i < 32 ==> p[i] in hash;
    forall i | 0 <= i < |p| ensures p[i] !in "/ \t\r\n'\"<>" {
      Letters(p[i]);
      assert p[i] in hash || p[i] in dash || p[i] in name;
    }
    PathNameForm(p);
    hide PathName, Stop;
  }

  lemma JoinFive(a: string, b: string, c: string, d: string, e: string)
    ensures a + b + c + d + e == a + (b + c + d) + e
  {
  }

  /** A path at the start of a text, letter by letter, and what it becomes. */
  lemma SpelledPathIsReplaced(hash: string, dash: string, name: string, rest: string)
    requires |hash| == 32 && forall c <- hash :: 'a' <= c <= 'z' || '0' <= c <= '9'
    requires (dash == "-" || dash == "\\-") && name != [] && forall c <- name :: c !in "/ \t\r\n'\"<>"
    requires rest == [] || rest[0] in "/ \t\r\n'\"<>"
    ensures Normalize("/nix/store/" + hash + dash + name + rest) == "/nix/store/<path>" + Normalize(rest)
  {
    if rest != [] { Letters(rest[0]); }
    SpelledName(hash, dash, name);
    hide Normalize, PathName, Stop;
    PathIsMatched(hash + dash + name, rest);
    JoinFive("/nix/store/", hash, dash, name, rest);
  }

  lemma OtherNameIsUnmatched(p: string, rest: string)
    requires !PathName(p) && (forall c <- p :: !Stop(c)) && EmptyOrStop(rest)
    ensures StorePathEnd(PREFIX + p + rest).None?
  {
    var a := PREFIX + p;
    assert forall j :: 11 <= j < |a| ==> a[j] == p[j - 11] && a[j] in p;
    assert StorePathEnd(a).None?;
    EndStops(a, rest, []);
    assert a + [] == a;
  }

  /** Anything else after the prefix, up to a stop character, is left as it is. */
  lemma OtherNameIsKept(p: string, rest: string)
    requires !PathName(p) && (forall c <- p :: !Stop(c)) && EmptyOrStop(rest)
    ensures Normalize(PREFIX + p + rest) == PREFIX + p + Normalize(rest)
  {
    forall c <- p ensures c != '/' { Letters(c); }
    OtherNameIsUnmatched(p, rest);
    var t := PREFIX + p + rest;
    assert t == PREFIX + (p + rest) && StartsWith(PREFIX, t) && t[|PREFIX|..] == p + rest;
    hide StorePathEnd, PathName, Stop, Normalize, StartsWith;
    NormalizeStep(t);
    SlashlessPassesThrough(p, rest);
    Regroup(PREFIX, p, Normalize(rest));
  }

  lemma PathIsMatched(p: string, rest: string)
    requires PathName(p) && EmptyOrStop(rest)
    ensures Normalize(PREFIX + p + rest) == TOKEN + Normalize(rest)
  {
    var a := PREFIX + p;
    var start := NameStart(a).value;
    assert forall j :: 11 <= j < |a| ==> a[j] == p[j - 11] && a[j] in p;
    assert StorePathEnd(a) == Some(|a|);
    EndStops(a, rest, []);
    assert a + [] == a && (a + rest)[..11] == PREFIX && (a + rest)[|a|..] == rest;
  }

  lemma PathIsKept(p: string, rest: string)
    requires PathName(p) && EmptyOrStop(rest)
    ensures ['/'] + Normalize((PREFIX + p + rest)[1..]) == PREFIX + p + Normalize(rest)
  {
    assert (PREFIX + p + rest)[1..] == "nix" + ("/store/" + p + rest);
    assert "/store/" + p + rest == ['/'] + ("store" + (['/'] + (p + rest)));
    SlashBeforePath(p, rest);
    var store := ['/'] + ("store" + (['/'] + (p + rest)));
    assert !StartsWith(PREFIX, store) && store[1..] == "store" + (['/'] + (p + rest));
    hide Normalize, StartsWith;
    SlashlessPassesThrough("nix", store);
    NormalizeStep(store);
    SlashlessPassesThrough("store", ['/'] + (p + rest));
    Spell(p, Normalize(rest));
  }

  lemma SlashBeforePath(p: string, rest: string)
    requires PathName(p)
    ensures Normalize(['/'] + (p + rest)) == ['/'] + (p + Normalize(rest))
  {
    var tail := ['/'] + (p + rest);
    assert |p| > 32 && tail[4] == p[3] && p[3] in p;
    assert !StartsWith(PREFIX, tail) && tail[1..] == p + rest && Slashless(p);
    hide Normalize, StartsWith;
    NormalizeStep(tail);
    SlashlessPassesThrough(p, rest);
  }

  lemma Spell(p: string, y: string)
    ensures ['/'] + ("nix" + (['/'] + ("store" + (['/'] + (p + y))))) == PREFIX + p + y
  {
  }

  // ----------------------------------------------------- many store paths

  /** A store path and the text up to the next one. */
  datatype Piece = Piece(path: string, gap: string)

  predicate Pieces(ps: seq<Piece>) { forall p <- ps :: PathName(p.path) && EmptyOrStop(p.gap) }

  function Text(lead: string, ps: seq<Piece>): string
    decreases |ps|
  {
    if ps == [] then lead else lead + (PREFIX + ps[0].path + Text(ps[0].gap, ps[1..]))
  }

  /** Each path becomes the token, or stays if the scan of the text right before it ends in an unfinished prefix. */
  function Tokens(lead: string, ps: seq<Piece>): string
    decreases |ps|
  {
    Normalize(lead) +
    if ps == [] then []
    else (if ScanEndsClean(lead) then TOKEN else PREFIX + ps[0].path) + Tokens(ps[0].gap, ps[1..])
  }

  lemma PiecesTail(ps: seq<Piece>)
    requires ps != [] && Pieces(ps)
    ensures PathName(ps[0].path) && EmptyOrStop(ps[0].gap) && Pieces(ps[1..])
  {
    assert ps[0] in ps && forall p <- ps[1..] :: p in ps;
  }

  lemma TextStops(lead: string, ps: seq<Piece>)
    requires EmptyOrStop(lead)
    ensures EmptyOrStop(Text(lead, ps))
  {
    if ps != [] {
      assert (PREFIX + ps[0].path + Text(ps[0].gap, ps[1..]))[0] == '/';
    }
  }

  lemma StartsPath(p: string, rest: string)
    ensures StartsWith(PREFIX, PREFIX + p + rest)
  {
    assert PREFIX + p + rest == PREFIX + (p + rest);
  }

  /** One store path and what follows it, after any text. */
  lemma AfterLead(lead: string, p: string, rest: string)
    requires PathName(p) && EmptyOrStop(rest)
    ensures Normalize(lead + (PREFIX + p + rest))
         == Normalize(lead) + ((if ScanEndsClean(lead) then TOKEN else PREFIX + p) + Normalize(rest))
  {
    var c := PREFIX + p + rest;
    StartsPath(p, rest);
    assert c != [];
    hide Normalize, StartsWith, PathName;
    ScanOver(lead, c);
    PathIsMatched(p, rest);
    PathIsKept(p, rest);
  }

  /** Normalising any text with any number of store paths, path by path. */
  lemma {:induction false} NormalizeText(lead: string, ps: seq<Piece>)
    requires Pieces(ps)
    ensures Normalize(Text(lead, ps)) == Tokens(lead, ps)
    decreases |ps|
  {
    hide Normalize, PathName, ScanEndsClean;
    if ps == [] {
      assert Normalize(lead) + [] == Normalize(lead);
    } else {
      PiecesTail(ps);
      TextStops(ps[0].gap, ps[1..]);
      hide EmptyOrStop;
      AfterLead(lead, ps[0].path, Text(ps[0].gap, ps[1..]));
      NormalizeText(ps[0].gap, ps[1..]);
    }
  }

  lemma TokensStop(lead: string, ps: seq<Piece>)
    requires EmptyOrStop(lead)
    ensures EmptyOrStop(Tokens(lead, ps))
  {
    HeadUnchanged(lead, 1);
    NormalizeStep(lead);
    assert lead != [] ==> Normalize(lead)[..1][0] == lead[..1][0];
    hide Normalize, ScanEndsClean;
    if ps != [] && lead == [] {
      assert TOKEN[0] == '/' && (PREFIX + ps[0].path)[0] == '/';
    }
  }

  lemma StopFreePrefix(p: string, x: string, k: nat)
    requires k <= |p + x| && EmptyOrStop(x)
    ensures (forall c <- (p + x)[..k] :: !Stop(c)) ==> k <= |p|
  {
    var prefix := (p + x)[..k];
    hide Stop;
    if |p| < k { assert prefix[|p|] == x[0] && prefix[|p|] in prefix; }
  }

  /** A kept path is read back from the output: its name ends where the first stop character stands. */
  lemma KeptPathIsRead(p: string, x: string, q: string, y: string)
    requires (forall c <- p :: !Stop(c)) && (forall c <- q :: !Stop(c))
    requires EmptyOrStop(x) && EmptyOrStop(y)
    ensures p + x == q + y <==> p == q && x == y
  {
    if p + x == q + y {
      assert (p + x)[..|q|] == q && (q + y)[..|p|] == p;
      StopFreePrefix(p, x, |q|);
      StopFreePrefix(q, y, |p|);
      assert x == (p + x)[|p|..] && y == (q + y)[|q|..];
    }
  }

  lemma SamePrefix(a: string, x: string, y: string)
    ensures a + x == a + y <==> x == y
  {
    assert (a + x)[|a|..] == x && (a + y)[|a|..] == y;
  }

  predicate SameGaps(ps: seq<Piece>, qs: seq<Piece>) {
    |ps| == |qs| && forall i :: 0 <= i < |ps| ==> ps[i].gap == qs[i].gap
  }

  function Before(lead: string, ps: seq<Piece>, i: nat): string
    requires i < |ps|
  {
    if i == 0 then lead else ps[i - 1].gap
  }

  /** Every path that differs stands after text whose scan ends cleanly. */
  predicate DifferOnlyInMatched(lead: string, ps: seq<Piece>, qs: seq<Piece>)
    requires |ps| == |qs|
  {
    forall i :: 0 <= i < |ps| ==> ScanEndsClean(Before(lead, ps, i)) || ps[i].path == qs[i].path
  }

  lemma DifferStep(lead: string, ps: seq<Piece>, qs: seq<Piece>)
    requires ps != [] && SameGaps(ps, qs)
    ensures SameGaps(ps[1..], qs[1..])
    ensures DifferOnlyInMatched(lead, ps, qs)
       <==> (ScanEndsClean(lead) || ps[0].path == qs[0].path) && DifferOnlyInMatched(ps[0].gap, ps[1..], qs[1..])
  {
    hide ScanEndsClean;
    var gap, tail := ps[0].gap, ps[1..];
    assert Before(lead, ps, 0) == lead;
    assert forall i :: 0 <= i < |tail| ==> Before(gap, tail, i) == Before(lead, ps, i + 1);
    if DifferOnlyInMatched(gap, tail, qs[1..]) && (ScanEndsClean(lead) || ps[0].path == qs[0].path) {
      forall i | 0 <= i < |ps| ensures ScanEndsClean(Before(lead, ps, i)) || ps[i].path == qs[i].path {
        if i > 0 { assert Before(gap, tail, i - 1) == Before(lead, ps, i) && tail[i - 1] == ps[i] && qs[1..][i - 1] == qs[i]; }
      }
    }
    if DifferOnlyInMatched(lead, ps, qs) {
      forall i | 0 <= i < |tail| ensures ScanEndsClean(Before(gap, tail, i)) || tail[i].path == qs[1..][i].path {
        assert ScanEndsClean(Before(lead, ps, i + 1)) || ps[i + 1].path == qs[i + 1].path;
      }
    }
  }

  lemma {:induction false} TokensSame(lead: string, ps: seq<Piece>, qs: seq<Piece>)
    requires Pieces(ps) && Pieces(qs) && SameGaps(ps, qs)
    ensures Tokens(lead, ps) == Tokens(lead, qs) <==> DifferOnlyInMatched(lead, ps, qs)
    decreases |ps|
  {
    if ps != [] {
      PiecesTail(ps);
      PiecesTail(qs);
      var gap, x, y := ps[0].gap, Tokens(ps[0].gap, ps[1..]), Tokens(qs[0].gap, qs[1..]);
      TokensStop(gap, ps[1..]);
      TokensStop(gap, qs[1..]);
      DifferStep(lead, ps, qs);
      TokensSame(gap, ps[1..], qs[1..]);
      OnePath(lead, ps[0].path, x, qs[0].path, y);
      hide Normalize, ScanEndsClean, PathName, DifferOnlyInMatched, Pieces;
    }
  }

  lemma OnePath(lead: string, p: string, x: string, q: string, y: string)
    requires PathName(p) && PathName(q) && EmptyOrStop(x) && EmptyOrStop(y)
    ensures var clean := ScanEndsClean(lead);
            (Normalize(lead) + ((if clean then TOKEN else PREFIX + p) + x)
             == Normalize(lead) + ((if clean then TOKEN else PREFIX + q) + y))
            <==> (clean || p == q) && x == y
  {
    assert (forall c <- p :: !Stop(c)) && (forall c <- q :: !Stop(c));
    hide Normalize, ScanEndsClean, PathName, Stop;
    if ScanEndsClean(lead) {
      SamePrefix(Normalize(lead), TOKEN + x, TOKEN + y);
      SamePrefix(TOKEN, x, y);
    } else {
      SamePrefix(Normalize(lead), PREFIX + p + x, PREFIX + q + y);
      assert PREFIX + p + x == PREFIX + (p + x) && PREFIX + q + y == PREFIX + (q + y);
      SamePrefix(PREFIX, p + x, q + y);
      KeptPathIsRead(p, x, q, y);
    }
  }

  /**
   Two texts that differ only in their store paths, any number of them, normalise
   to the same text exactly when every path that differs is one the scanner
   matches, that is, when the scan of the text right before it ends cleanly.
   */
  lemma SameUpToPaths(lead: string, ps: seq<Piece>, qs: seq<Piece>)
    requires Pieces(ps) && Pieces(qs) && SameGaps(ps, qs)
    ensures Normalize(Text(lead, ps)) == Normalize(Text(lead, qs)) <==> DifferOnlyInMatched(lead, ps, qs)
  {
    NormalizeText(lead, ps);
    NormalizeText(lead, qs);
    TokensSame(lead, ps, qs);
  }

  /** The same for one path. */
  lemma SameUpToPath(pre: string, p: string, p': string, rest: string)
    requires PathName(p) && PathName(p') && EmptyOrStop(rest)
    ensures Normalize(pre + (PREFIX + p + rest)) == Normalize(pre + (PREFIX + p' + rest))
        <==> ScanEndsClean(pre) || p == p'
  {
    AfterLead(pre, p, rest);
    AfterLead(pre, p', rest);
    hide Normalize, ScanEndsClean, PathName;
    var y := Normalize(rest);
    assert EmptyOrStop(y) by { TokensStop(rest, []); }
    OnePath(pre, p, y, p', y);
  }
}
