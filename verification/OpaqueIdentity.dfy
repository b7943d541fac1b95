/**
 Opaque capability ids: the byte string that is hashed, and why equal byte
 strings mean the same action with the same fields. Strings are byte strings.
 */
module OpaqueIdentity {
  import opened Common
  import opened RepairRecords

  const NUL: char := 0 as char
  const DOMAIN: string := "radarr-repair-opaque-id-v1\0"

  // ------------------------------------------------------------- numbers

  function Digit(d: int): char
    requires 0 <= d < 10
  {
    ('0' as int + d) as char
  }

  function Itoa(n: nat): (s: string)
    ensures s != [] && (|s| == 1 <==> n < 10)
    ensures forall c <- s :: '0' <= c <= '9'
  {
    if n < 10 then [Digit(n)] else Itoa(n / 10) + [Digit(n % 10)]
  }

  function FormatInt(i: int): (s: string)
    ensures s != [] && (s[0] == '-' <==> i < 0)
  {
    if i < 0 then "-" + Itoa(-i)
    else
      assert Itoa(i)[0] in Itoa(i);
      Itoa(i)
  }

  function FormatBool(b: bool): string { if b then "true" else "false" }

  lemma {:induction false} ItoaInjective(a: nat, b: nat)
    requires Itoa(a) == Itoa(b)
    ensures a == b
    decreases a
  {
    var s := Itoa(a);
    var n := |s| - 1;
    if a >= 10 {
      assert s[..n] == Itoa(a / 10) && s[..n] == Itoa(b / 10);
      assert s[n] == Digit(a % 10) && s[n] == Digit(b % 10);
      ItoaInjective(a / 10, b / 10);
    } else {
      assert s[0] == Digit(a) && s[0] == Digit(b);
    }
  }

  /** The number a decimal text stands for. */
  function Decimal(s: string): int {
    if s == [] then 0 else 10 * Decimal(s[..|s| - 1]) + (s[|s| - 1] as int - '0' as int)
  }

  /** A number's text is its decimal notation, without leading zeros. */
  lemma {:induction false} ItoaReads(n: nat)
    ensures Decimal(Itoa(n)) == n && (n > 0 ==> Itoa(n)[0] != '0')
  {
    if n >= 10 {
      ItoaReads(n / 10);
      assert Itoa(n)[..|Itoa(n)| - 1] == Itoa(n / 10);
    } else {
      assert [Digit(n)][..0] == [];
    }
  }

  lemma FormatIntInjective(a: int, b: int)
    ensures FormatInt(a) == FormatInt(b) ==> a == b
  {
    if FormatInt(a) == FormatInt(b) {
      if a < 0 {
        assert FormatInt(a)[1..] == Itoa(-a) && FormatInt(b)[1..] == Itoa(-b);
        ItoaInjective(-a, -b);
      } else {
        ItoaInjective(a, b);
      }
    }
  }

  // ------------------------------------------------------------ encoding

  function EncodeValue(v: string): string { [NUL] + Itoa(|v|) + [NUL] + v }

  function EncodeValues(values: seq<string>): string {
    if values == [] then [] else EncodeValue(values[0]) + EncodeValues(values[1..])
  }

  /** The bytes `opaqueID` feeds to the digest. */
  function Encode(kind: string, values: seq<string>): string { DOMAIN + kind + EncodeValues(values) }

  /** The domain, the kind, and then each value after a NUL, its length in bytes and another NUL. */
  lemma {:induction false} EncodeAppends(kind: string, values: seq<string>, v: string)
    ensures Encode(kind, []) == "radarr-repair-opaque-id-v1\0" + kind
    ensures Encode(kind, values + [v]) == Encode(kind, values) + "\0" + Itoa(|v|) + "\0" + v
    decreases |values|
  {
    ValuesAppend(values, v);
    assert DOMAIN + kind + [] == DOMAIN + kind;
    hide Itoa, EncodeValues;
    assert DOMAIN + kind + (EncodeValues(values) + EncodeValue(v)) == DOMAIN + kind + EncodeValues(values) + EncodeValue(v);
  }

  lemma {:induction false} ValuesAppend(values: seq<string>, v: string)
    ensures EncodeValues(values + [v]) == EncodeValues(values) + EncodeValue(v)
  {
    if values == [] {
      assert values + [v] == [v] && [v][1..] == [];
    } else {
      assert (values + [v])[0] == values[0] && (values + [v])[1..] == values[1..] + [v];
      ValuesAppend(values[1..], v);
    }
  }

  lemma FeedStep(fed: string, rest: seq<string>)
    requires rest != []
    ensures fed + EncodeValues(rest)
         == fed + [NUL] + Itoa(|rest[0]|) + [NUL] + rest[0] + EncodeValues(rest[1..])
  {
  }

  /** The digest is fed piece by piece; together the pieces are the encoding. */
  method FeedDigest(kind: string, values: seq<string>) returns (fed: string)
    ensures fed == Encode(kind, values)
  {
    fed := DOMAIN + kind;
    var i := 0;
    while i < |values|
      invariant 0 <= i <= |values|
      invariant Encode(kind, values) == fed + EncodeValues(values[i..])
    {
      var value := values[i];
      FeedStep(fed, values[i..]);
      fed := fed + [NUL];
      fed := fed + Itoa(|value|);
      fed := fed + [NUL];
      fed := fed + value;
      assert values[i..][1..] == values[i + 1..];
      i := i + 1;
    }
  }

  predicate NulFree(s: string) { forall c <- s :: c != NUL }

  lemma NulFreePrefix(a: string, s: string, k: nat)
    requires k <= |a + s| && (s == [] || s[0] == NUL)
    ensures NulFree((a + s)[..k]) ==> k <= |a|
  {
    var prefix := (a + s)[..k];
    if |a| < k { assert prefix[|a|] == s[0] && prefix[|a|] in prefix; }
  }

  /** A NUL-free text in front of a NUL, or of the end, can be read back. */
  lemma {:induction false} SplitAtNul(a: string, b: string, s: string, t: string)
    requires NulFree(a) && NulFree(b) && a + s == b + t
    requires (s == [] || s[0] == NUL) && (t == [] || t[0] == NUL)
    ensures a == b && s == t
  {
    var whole := a + s;
    assert whole[..|a|] == a && whole[|a|..] == s && whole[..|b|] == b && whole[|b|..] == t;
    NulFreePrefix(a, s, |b|);
    NulFreePrefix(b, t, |a|);
  }

  lemma Cancel<T>(a: seq<T>, b: seq<T>, s: seq<T>, t: seq<T>)
    requires a + s == b + t && |a| == |b|
    ensures a == b && s == t
  {
    assert a == (a + s)[..|a|] && b == (b + t)[..|b|];
    assert s == (a + s)[|a|..] && t == (b + t)[|b|..];
  }

  lemma EncodedStartsWithNul(values: seq<string>)
    ensures EncodeValues(values) == [] <==> values == []
    ensures values != [] ==> EncodeValues(values)[0] == NUL
  {
  }

  lemma EncodedHead(values: seq<string>)
    requires values != []
    ensures EncodeValues(values)
         == [NUL] + (Itoa(|values[0]|) + ([NUL] + (values[0] + EncodeValues(values[1..]))))
  {
  }

  /** The length prefix tells where each value ends, whatever bytes it holds. */
  lemma {:induction false} ValuesInjective(a: seq<string>, b: seq<string>)
    requires EncodeValues(a) == EncodeValues(b)
    ensures a == b
    decreases |a|
  {
    EncodedStartsWithNul(a);
    EncodedStartsWithNul(b);
    if a != [] {
      var s := a[0] + EncodeValues(a[1..]);
      var t := b[0] + EncodeValues(b[1..]);
      EncodedHead(a);
      EncodedHead(b);
      hide EncodeValues, EncodeValue;
      Cancel([NUL], [NUL], Itoa(|a[0]|) + ([NUL] + s), Itoa(|b[0]|) + ([NUL] + t));
      SplitAtNul(Itoa(|a[0]|), Itoa(|b[0]|), [NUL] + s, [NUL] + t);
      ItoaInjective(|a[0]|, |b[0]|);
      Cancel([NUL], [NUL], s, t);
      Cancel(a[0], b[0], EncodeValues(a[1..]), EncodeValues(b[1..]));
      ValuesInjective(a[1..], b[1..]);
      assert a == [a[0]] + a[1..] && b == [b[0]] + b[1..];
    }
  }

  /** Equal hash inputs have equal NUL-free kinds and equal value lists. */
  lemma EncodeInjective(kind: string, values: seq<string>, kind': string, values': seq<string>)
    requires NulFree(kind) && NulFree(kind')
    requires Encode(kind, values) == Encode(kind', values')
    ensures kind == kind' && values == values'
  {
    assert Encode(kind, values) == DOMAIN + (kind + EncodeValues(values));
    assert Encode(kind', values') == DOMAIN + (kind' + EncodeValues(values'));
    Cancel(DOMAIN, DOMAIN, kind + EncodeValues(values), kind' + EncodeValues(values'));
    EncodedStartsWithNul(values);
    EncodedStartsWithNul(values');
    SplitAtNul(kind, kind', EncodeValues(values), EncodeValues(values'));
    ValuesInjective(values, values');
  }

  /** Without the NUL-free condition the kind is not determined: it could swallow an encoded value. */
  lemma KindMustBeNulFree(kind: string, value: string)
    ensures Encode(kind, [value]) == Encode(kind + EncodeValue(value), [])
  {
    assert EncodeValues([value]) == EncodeValue(value) + EncodeValues([]);
    assert DOMAIN + kind + EncodeValue(value) == DOMAIN + (kind + EncodeValue(value));
  }

  // -------------------------------------------------------- capabilities

  /** A file id with its device-independent fingerprint text. */
  datatype BoundFile = BoundFile(fileId: string, stable: string)

  datatype ManualBinding = ManualBinding(
    file: BoundFile, importMode: string, path: string, folderName: string, quality: Quality,
    languages: seq<Language>, releaseGroup: string, indexerFlags: int, downloadId: string, movieId: int)

  datatype Capability =
    | JoinParts(candidates: seq<string>)
    | ManualImport(binding: ManualBinding)
    | RemuxBluray(playlist: BoundFile, durationMs: int, chapters: int, clips: seq<BoundFile>)
    | RemuxDvd(navigation: BoundFile, number: int, titleSet: int, titleInSet: int, dvdDurationMs: int,
               dvdChapters: int, sources: seq<BoundFile>)

  function RevisionValues(r: Option<Revision>): seq<string> {
    match r
    case None => ["revision:absent"]
    case Some(v) => ["revision:present", FormatInt(v.version), FormatInt(v.real_), FormatBool(v.isRepack)]
  }

  function LanguageValues(languages: seq<Language>): seq<string> {
    if languages == [] then []
    else [FormatInt(languages[0].id), languages[0].name] + LanguageValues(languages[1..])
  }

  function FileValues(files: seq<BoundFile>): seq<string> {
    if files == [] then [] else [files[0].fileId, files[0].stable] + FileValues(files[1..])
  }

  function ManualHead(b: ManualBinding): seq<string> {
    ["manual_import_file_v1", b.file.fileId, b.file.stable, b.importMode, b.path, b.folderName,
     FormatInt(b.quality.id), b.quality.name, b.quality.source, FormatInt(b.quality.resolution), b.quality.modifier]
  }

  function ManualTail(b: ManualBinding): seq<string> {
    [b.releaseGroup, FormatInt(b.indexerFlags), b.downloadId, FormatInt(b.movieId)]
  }

  /** The value list each kind of capability is identified by. */
  function Identity(c: Capability): seq<string> {
    match c
    case JoinParts(candidates) => ["join_parts_v1"] + candidates
    case ManualImport(b) =>
      ManualHead(b) + (RevisionValues(b.quality.revision)
                       + ([Itoa(|b.languages|)] + (LanguageValues(b.languages) + ManualTail(b))))
    case RemuxBluray(playlist, durationMs, chapters, clips) =>
      ["remux_bluray_v1", playlist.fileId, playlist.stable, FormatInt(durationMs), FormatInt(chapters)]
      + FileValues(clips)
    case RemuxDvd(navigation, number, titleSet, titleInSet, durationMs, chapters, sources) =>
      ["remux_dvd_v1", navigation.fileId, navigation.stable, FormatInt(number), FormatInt(titleSet),
       FormatInt(titleInSet), FormatInt(durationMs), FormatInt(chapters)]
      + FileValues(sources)
  }

  lemma {:induction false} FilesListed(files: seq<BoundFile>, i: nat)
    requires i < |files|
    ensures |FileValues(files)| == 2 * |files|
    ensures FileValues(files)[2 * i] == files[i].fileId && FileValues(files)[2 * i + 1] == files[i].stable
  {
    if |files| > 1 { FilesListed(files[1..], if i > 0 then i - 1 else 0); }
  }

  lemma {:induction false} LanguagesListed(languages: seq<Language>, i: nat)
    requires i < |languages|
    ensures |LanguageValues(languages)| == 2 * |languages|
    ensures LanguageValues(languages)[2 * i] == FormatInt(languages[i].id)
    ensures LanguageValues(languages)[2 * i + 1] == languages[i].name
  {
    if |languages| > 1 { LanguagesListed(languages[1..], if i > 0 then i - 1 else 0); }
  }

  /** Which value stands where in the list of a disc: the action, the main file, the numbers, then the files in order. */
  lemma DiscLayout(c: Capability, i: nat)
    requires c.RemuxBluray? || c.RemuxDvd?
    ensures var v := Identity(c);
            if c.RemuxBluray? then
              && |v| >= 5 && v[0] == "remux_bluray_v1" && v[1] == c.playlist.fileId && v[2] == c.playlist.stable
              && v[3] == FormatInt(c.durationMs) && v[4] == FormatInt(c.chapters)
              && (i < |c.clips| ==> |v| == 5 + 2 * |c.clips| && v[5 + 2 * i] == c.clips[i].fileId && v[6 + 2 * i] == c.clips[i].stable)
            else
              && |v| >= 8 && v[0] == "remux_dvd_v1" && v[1] == c.navigation.fileId && v[2] == c.navigation.stable
              && v[3] == FormatInt(c.number) && v[4] == FormatInt(c.titleSet) && v[5] == FormatInt(c.titleInSet)
              && v[6] == FormatInt(c.dvdDurationMs) && v[7] == FormatInt(c.dvdChapters)
              && (i < |c.sources| ==>
                    |v| == 8 + 2 * |c.sources| && v[8 + 2 * i] == c.sources[i].fileId && v[9 + 2 * i] == c.sources[i].stable)
  {
    if c.RemuxBluray? && i < |c.clips| { FilesListed(c.clips, i); }
    if c.RemuxDvd? && i < |c.sources| { FilesListed(c.sources, i); }
    hide FormatInt, FileValues;
  }

  lemma Slices<T>(head: seq<T>, middle: seq<T>, count: T, list: seq<T>, tail: seq<T>)
    ensures var v, n := head + (middle + ([count] + (list + tail))), |head| + |middle|;
            && |v| == n + 1 + |list| + |tail| && v[..|head|] == head && v[|head|..n] == middle && v[n] == count
            && v[n + 1 + |list|..] == tail
    ensures var v, n := head + (middle + ([count] + (list + tail))), |head| + |middle|;
            forall i :: 0 <= i < |list| ==> v[n + 1 + i] == list[i]
  {
  }

  /** Where the languages of a manual import stand in its list: past eleven fields, the revision and their number. */
  function LanguagesFrom(b: ManualBinding): nat { if b.quality.revision.Some? then 16 else 13 }

  lemma ManualParts(b: ManualBinding)
    ensures |ManualHead(b)| == 11 && |ManualTail(b)| == 4
    ensures |RevisionValues(b.quality.revision)| == LanguagesFrom(b) - 12
    ensures |LanguageValues(b.languages)| == 2 * |b.languages|
  {
    if b.languages != [] { LanguagesListed(b.languages, 0); }
  }

  /** The list of a manual import: the fields, the revision if there is one, the number of languages, them and the rest. */
  lemma ManualLayout(b: ManualBinding)
    ensures var v, n, m := Identity(ManualImport(b)), LanguagesFrom(b), 2 * |b.languages|;
            && |v| == n + m + 4
            && v[..11] == ["manual_import_file_v1", b.file.fileId, b.file.stable, b.importMode, b.path, b.folderName,
                           FormatInt(b.quality.id), b.quality.name, b.quality.source, FormatInt(b.quality.resolution),
                           b.quality.modifier]
            && v[11..n - 1] == (match b.quality.revision
                                case None => ["revision:absent"]
                                case Some(r) => ["revision:present", FormatInt(r.version), FormatInt(r.real_),
                                                 if r.isRepack then "true" else "false"])
            && v[n - 1] == Itoa(|b.languages|)
            && v[n + m..] == [b.releaseGroup, FormatInt(b.indexerFlags), b.downloadId, FormatInt(b.movieId)]
  {
    ManualParts(b);
    assert ManualHead(b) == ["manual_import_file_v1", b.file.fileId, b.file.stable, b.importMode, b.path, b.folderName,
                             FormatInt(b.quality.id), b.quality.name, b.quality.source, FormatInt(b.quality.resolution),
                             b.quality.modifier];
    assert ManualTail(b) == [b.releaseGroup, FormatInt(b.indexerFlags), b.downloadId, FormatInt(b.movieId)];
    hide FormatInt, LanguageValues, Itoa, ManualHead, ManualTail;
    Slices(ManualHead(b), RevisionValues(b.quality.revision), Itoa(|b.languages|), LanguageValues(b.languages), ManualTail(b));
  }

  lemma ManualLanguagesAt(b: ManualBinding, i: nat)
    requires i < |b.languages|
    ensures var v, n := Identity(ManualImport(b)), LanguagesFrom(b);
            |v| > n + 2 * i + 1 && v[n + 2 * i] == FormatInt(b.languages[i].id) && v[n + 2 * i + 1] == b.languages[i].name
  {
    ManualParts(b);
    LanguagesListed(b.languages, i);
    hide FormatInt, LanguageValues, Itoa, ManualHead, ManualTail, RevisionValues;
    Slices(ManualHead(b), RevisionValues(b.quality.revision), Itoa(|b.languages|), LanguageValues(b.languages), ManualTail(b));
  }

  lemma {:induction false} FilesInjective(a: seq<BoundFile>, b: seq<BoundFile>)
    requires FileValues(a) == FileValues(b)
    ensures a == b
  {
    if a != [] && b != [] {
      Cancel([a[0].fileId, a[0].stable], [b[0].fileId, b[0].stable], FileValues(a[1..]), FileValues(b[1..]));
      assert [a[0].fileId, a[0].stable][1] == [b[0].fileId, b[0].stable][1];
      FilesInjective(a[1..], b[1..]);
      assert a == [a[0]] + a[1..] && b == [b[0]] + b[1..];
    }
  }

  lemma {:induction false} LanguagesInjective(a: seq<Language>, b: seq<Language>, s: seq<string>, t: seq<string>)
    requires |a| == |b| && LanguageValues(a) + s == LanguageValues(b) + t
    ensures a == b && s == t
    decreases |a|
  {
    if a == [] {
      assert LanguageValues(a) + s == s && LanguageValues(b) + t == t;
    } else {
      var x := [FormatInt(a[0].id), a[0].name];
      var y := [FormatInt(b[0].id), b[0].name];
      assert LanguageValues(a) + s == x + (LanguageValues(a[1..]) + s);
      assert LanguageValues(b) + t == y + (LanguageValues(b[1..]) + t);
      Cancel(x, y, LanguageValues(a[1..]) + s, LanguageValues(b[1..]) + t);
      assert x[0] == y[0] && x[1] == y[1];
      FormatIntInjective(a[0].id, b[0].id);
      LanguagesInjective(a[1..], b[1..], s, t);
      assert a == [a[0]] + a[1..] && b == [b[0]] + b[1..];
    }
  }

  /** The optional revision is read back from its first word. */
  lemma RevisionInjective(a: Option<Revision>, b: Option<Revision>, s: seq<string>, t: seq<string>)
    requires RevisionValues(a) + s == RevisionValues(b) + t
    ensures a == b && s == t
  {
    var x := RevisionValues(a);
    var y := RevisionValues(b);
    assert (x + s)[0] == x[0] && (y + t)[0] == y[0];
    assert "revision:absent"[9] != "revision:present"[9];
    Cancel(x, y, s, t);
    if a.Some? && b.Some? {
      assert x[1] == y[1] && x[2] == y[2] && x[3] == y[3];
      FormatIntInjective(a.value.version, b.value.version);
      FormatIntInjective(a.value.real_, b.value.real_);
      assert "true"[0] != "false"[0];
    }
  }

  lemma ManualEndsInjective(a: ManualBinding, b: ManualBinding)
    requires ManualHead(a) == ManualHead(b) && ManualTail(a) == ManualTail(b)
    requires a.quality.revision == b.quality.revision && a.languages == b.languages
    ensures a == b
  {
    var x, y := ManualHead(a), ManualHead(b);
    assert forall i :: 0 <= i < 11 ==> x[i] == y[i];
    assert x[1] == y[1] && x[2] == y[2] && x[3] == y[3] && x[4] == y[4] && x[5] == y[5];
    assert x[6] == y[6] && x[7] == y[7] && x[8] == y[8] && x[9] == y[9] && x[10] == y[10];
    FormatIntInjective(a.quality.id, b.quality.id);
    FormatIntInjective(a.quality.resolution, b.quality.resolution);
    var s, t := ManualTail(a), ManualTail(b);
    assert s[0] == t[0] && s[1] == t[1] && s[2] == t[2] && s[3] == t[3];
    FormatIntInjective(a.indexerFlags, b.indexerFlags);
    FormatIntInjective(a.movieId, b.movieId);
  }

  lemma ManualInjective(a: ManualBinding, b: ManualBinding)
    requires Identity(ManualImport(a)) == Identity(ManualImport(b))
    ensures a == b
  {
    var restA := [Itoa(|a.languages|)] + (LanguageValues(a.languages) + ManualTail(a));
    var restB := [Itoa(|b.languages|)] + (LanguageValues(b.languages) + ManualTail(b));
    Cancel(ManualHead(a), ManualHead(b),
           RevisionValues(a.quality.revision) + restA, RevisionValues(b.quality.revision) + restB);
    RevisionInjective(a.quality.revision, b.quality.revision, restA, restB);
    Cancel([Itoa(|a.languages|)], [Itoa(|b.languages|)],
           LanguageValues(a.languages) + ManualTail(a), LanguageValues(b.languages) + ManualTail(b));
    assert Itoa(|a.languages|) == Itoa(|b.languages|) by { assert restA[0] == restB[0]; }
    ItoaInjective(|a.languages|, |b.languages|);
    LanguagesInjective(a.languages, b.languages, ManualTail(a), ManualTail(b));
    ManualEndsInjective(a, b);
  }

  lemma BlurayInjective(a: Capability, b: Capability)
    requires a.RemuxBluray? && b.RemuxBluray? && Identity(a) == Identity(b)
    ensures a == b
  {
    var x := Identity(a)[..5];
    var y := Identity(b)[..5];
    assert x[1] == y[1] && x[2] == y[2] && x[3] == y[3] && x[4] == y[4];
    FormatIntInjective(a.durationMs, b.durationMs);
    FormatIntInjective(a.chapters, b.chapters);
    assert Identity(a)[5..] == FileValues(a.clips) && Identity(b)[5..] == FileValues(b.clips);
    FilesInjective(a.clips, b.clips);
  }

  lemma DvdInjective(a: Capability, b: Capability)
    requires a.RemuxDvd? && b.RemuxDvd? && Identity(a) == Identity(b)
    ensures a == b
  {
    var x := Identity(a)[..8];
    var y := Identity(b)[..8];
    assert x[1] == y[1] && x[2] == y[2] && x[3] == y[3] && x[4] == y[4];
    assert x[5] == y[5] && x[6] == y[6] && x[7] == y[7];
    FormatIntInjective(a.number, b.number);
    FormatIntInjective(a.titleSet, b.titleSet);
    FormatIntInjective(a.titleInSet, b.titleInSet);
    FormatIntInjective(a.dvdDurationMs, b.dvdDurationMs);
    FormatIntInjective(a.dvdChapters, b.dvdChapters);
    assert Identity(a)[8..] == FileValues(a.sources) && Identity(b)[8..] == FileValues(b.sources);
    FilesInjective(a.sources, b.sources);
  }

  function ActionOf(c: Capability): string {
    match c
    case JoinParts(_) => "join_parts_v1"
    case ManualImport(_) => "manual_import_file_v1"
    case RemuxBluray(_, _, _, _) => "remux_bluray_v1"
    case RemuxDvd(_, _, _, _, _, _, _) => "remux_dvd_v1"
  }

  lemma ActionsDiffer(a: Capability, b: Capability)
    requires ActionOf(a) == ActionOf(b)
    ensures a.JoinParts? == b.JoinParts? && a.ManualImport? == b.ManualImport? && a.RemuxBluray? == b.RemuxBluray?
  {
  }

  lemma IdentityStartsWithAction(c: Capability)
    ensures Identity(c) != [] && Identity(c)[0] == ActionOf(c)
  {
  }

  /** Two capabilities with the same hash input are the same action with the same fields. */
  lemma CapabilityBytesInjective(a: Capability, b: Capability)
    requires Encode("capability", Identity(a)) == Encode("capability", Identity(b))
    ensures a == b
  {
    EncodeInjective("capability", Identity(a), "capability", Identity(b));
    IdentityStartsWithAction(a);
    IdentityStartsWithAction(b);
    ActionsDiffer(a, b);
    match a
    case JoinParts(candidates) =>
      Cancel(["join_parts_v1"], ["join_parts_v1"], candidates, b.candidates);
    case ManualImport(binding) => ManualInjective(binding, b.binding);
    case RemuxBluray(_, _, _, _) => BlurayInjective(a, b);
    case RemuxDvd(_, _, _, _, _, _, _) => DvdInjective(a, b);
  }

  // ------------------------------------------- building the value lists

  /** Appends an id and fingerprint per file, as both disc builders do. */
  method AppendFiles(start: seq<string>, files: seq<BoundFile>) returns (identity: seq<string>)
    ensures identity == start + FileValues(files)
  {
    identity := start;
    var i := 0;
    while i < |files|
      invariant 0 <= i <= |files|
      invariant identity + FileValues(files[i..]) == start + FileValues(files)
    {
      ghost var before := identity;
      identity := identity + [files[i].fileId, files[i].stable];
      assert files[i..][1..] == files[i + 1..];
      assert identity + FileValues(files[i + 1..])
          == before + ([files[i].fileId, files[i].stable] + FileValues(files[i + 1..]));
      i := i + 1;
    }
  }

  method AppendLanguages(start: seq<string>, languages: seq<Language>) returns (identity: seq<string>)
    ensures identity == start + LanguageValues(languages)
  {
    identity := start;
    var i := 0;
    while i < |languages|
      invariant 0 <= i <= |languages|
      invariant identity + LanguageValues(languages[i..]) == start + LanguageValues(languages)
    {
      ghost var before := identity;
      identity := identity + [FormatInt(languages[i].id), languages[i].name];
      assert languages[i..][1..] == languages[i + 1..];
      assert identity + LanguageValues(languages[i + 1..])
          == before + ([FormatInt(languages[i].id), languages[i].name] + LanguageValues(languages[i + 1..]));
      i := i + 1;
    }
  }

  lemma Regroup<T>(a: seq<T>, b: seq<T>, c: seq<T>, d: seq<T>, e: seq<T>)
    ensures a + b + c + d + e == a + (b + (c + (d + e)))
  {
  }

  /** The id of a manual import, built by appending, is that of its capability. */
  method ManualImportId(b: ManualBinding) returns (id: string)
    ensures id == ManualId(b)
  {
    hide ManualHead, RevisionValues, LanguageValues, ManualTail, Encode, Itoa;
    var identity := ManualHead(b);
    identity := identity + RevisionValues(b.quality.revision);
    identity := identity + [Itoa(|b.languages|)];
    identity := AppendLanguages(identity, b.languages);
    identity := identity + ManualTail(b);
    Regroup(ManualHead(b), RevisionValues(b.quality.revision), [Itoa(|b.languages|)],
            LanguageValues(b.languages), ManualTail(b));
    id := FeedDigest("capability", identity);
  }

  function ManualId(b: ManualBinding): string { Encode("capability", Identity(ManualImport(b))) }

  lemma ManualIdInjective(a: ManualBinding, b: ManualBinding)
    ensures ManualId(a) == ManualId(b) ==> a == b
  {
    if ManualId(a) == ManualId(b) { CapabilityBytesInjective(ManualImport(a), ManualImport(b)); }
  }

  /** Files that could not be bound are skipped; the rest must be pairwise different. */
  ghost predicate Distinct(matches: seq<Option<ManualBinding>>) {
    forall i, j :: 0 <= i < j < |matches| && matches[i].Some? ==> matches[i] != matches[j]
  }

  lemma DistinctAppend(matches: seq<Option<ManualBinding>>, m: Option<ManualBinding>)
    ensures Distinct(matches + [m]) <==> Distinct(matches) && (m.Some? ==> m !in matches)
  {
    var all := matches + [m];
    assert all[|matches|] == m && all[..|matches|] == matches;
    assert forall i :: 0 <= i < |matches| ==> all[i] == matches[i];
  }

  lemma DistinctPrefix(matches: seq<Option<ManualBinding>>, k: nat)
    requires k <= |matches|
    ensures Distinct(matches) ==> Distinct(matches[..k])
  {
  }

  /** Every bound import is found under its own id and nothing else is offered. */
  ghost predicate Offers(matches: seq<Option<ManualBinding>>, bindings: map<string, ManualBinding>, ids: seq<string>) {
    && (forall b :: Some(b) in matches ==> ManualId(b) in bindings && bindings[ManualId(b)] == b)
    && (forall id :: id in bindings ==> ManualId(bindings[id]) == id && Some(bindings[id]) in matches)
    && (forall id :: id in ids <==> id in bindings) && |ids| == |bindings|
  }

  lemma OffersAppend(matches: seq<Option<ManualBinding>>, m: Option<ManualBinding>,
                     bindings: map<string, ManualBinding>, ids: seq<string>)
    requires Offers(matches, bindings, ids)
    ensures m.None? ==> Offers(matches + [m], bindings, ids)
    ensures m.Some? && ManualId(m.value) !in bindings
         ==> Offers(matches + [m], bindings[ManualId(m.value) := m.value], ids + [ManualId(m.value)])
  {
    hide ManualId;
    assert forall b :: Some(b) in matches + [m] <==> Some(b) in matches || m == Some(b);
  }

  lemma OffersListed(matches: seq<Option<ManualBinding>>, b: ManualBinding,
                     bindings: map<string, ManualBinding>, ids: seq<string>)
    requires Offers(matches, bindings, ids)
    ensures Some(b) in matches ==> ManualId(b) in bindings
  {
  }

  lemma OffersDuplicate(matches: seq<Option<ManualBinding>>, b: ManualBinding,
                        bindings: map<string, ManualBinding>, ids: seq<string>)
    requires Offers(matches, bindings, ids) && ManualId(b) in bindings
    ensures Some(b) in matches
  {
    ManualIdInjective(b, bindings[ManualId(b)]);
  }

  /** Binding fails exactly when two matches bind the same import. */
  method BindManualImports(matches: seq<Option<ManualBinding>>)
    returns (bound: Option<map<string, ManualBinding>>, ids: seq<string>)
    ensures bound.Some? <==> Distinct(matches)
    ensures bound.Some? ==> Offers(matches, bound.value, ids)
  {
    var bindings: map<string, ManualBinding> := map[];
    ids := [];
    assert Distinct(matches[..0]) && Offers(matches[..0], bindings, ids);
    hide ManualId, Distinct, Offers;
    for k := 0 to |matches|
      invariant Distinct(matches[..k]) && Offers(matches[..k], bindings, ids)
    {
      assert matches[..k + 1] == matches[..k] + [matches[k]];
      DistinctAppend(matches[..k], matches[k]);
      OffersAppend(matches[..k], matches[k], bindings, ids);
      if matches[k].Some? {
        var b := matches[k].value;
        var id := ManualImportId(b);
        if id in bindings {
          OffersDuplicate(matches[..k], b, bindings, ids);
          DistinctPrefix(matches, k + 1);
          return None, ids;
        }
        assert Some(b) !in matches[..k] by { OffersListed(matches[..k], b, bindings, ids); }
        bindings := bindings[id := b];
        ids := ids + [id];
      }
    }
    assert matches[..|matches|] == matches;
    bound := Some(bindings);
  }
}
