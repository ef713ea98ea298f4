/** Recording file names and the recording directory, after
    cineluck/utils/file_utils.py: the generated name
    `YYYY-MM-DD_HH-MM-SS_2K{fps}_{codec}[_takeNNN][_suffix].{container}`, the
    scan that recomputes the take counter from the `.mkv` files already in
    the day's directory, the composition of the two into the next file path,
    and the selection of incomplete recordings to delete.

    The clock is a parameter (`DateTime`), a directory's contents are a map
    from entry name to entry, and a path is its sequence of components. */
module FileUtils {
  import opened Wrappers
  import opened Text
  import opened Seqs

  // ---------------------------------------------------------------------
  // Clock and directory contents
  // ---------------------------------------------------------------------

  datatype DateTime = DateTime(year: nat, month: nat, day: nat, hour: nat, minute: nat, second: nat)

  /** `strftime("%Y-%m-%d")`. */
  function DateString(t: DateTime): string {
    PadZeros(Digits(t.year), 4) + "-" + PadZeros(Digits(t.month), 2) + "-" + PadZeros(Digits(t.day), 2)
  }

  /** `strftime("%H-%M-%S")`. */
  function TimeString(t: DateTime): string {
    PadZeros(Digits(t.hour), 2) + "-" + PadZeros(Digits(t.minute), 2) + "-" + PadZeros(Digits(t.second), 2)
  }

  datatype Entry = File(size: nat) | Directory

  /** The entries of one directory, by name. */
  type Listing = map<string, Entry>

  /** A path as its components: `Path(base) / today / filename`. */
  type Path = seq<string>

  // ---------------------------------------------------------------------
  // pathlib's view of a file name
  // ---------------------------------------------------------------------

  /** pathlib recognises a suffix when the last '.' is neither the first
      nor the last character of the name. */
  predicate HasSuffix(name: string) {
    0 < RFind(name, '.') < |name| - 1
  }

  /** `Path.suffix`. */
  function Suffix(name: string): string {
    if HasSuffix(name) then name[RFind(name, '.')..] else ""
  }

  /** `Path.stem`. */
  function Stem(name: string): string {
    if HasSuffix(name) then name[..RFind(name, '.')] else name
  }

  /** Stem and suffix split the name without losing anything. */
  lemma StemAndSuffix(name: string)
    ensures Stem(name) + Suffix(name) == name
    ensures Suffix(name) == [] || (Suffix(name)[0] == '.' && '.' !in Suffix(name)[1..])
  {
    if HasSuffix(name) {
      var i := RFind(name, '.');
      assert name[..i] + name[i..] == name;
      forall j | 0 <= j < |name[i..]| - 1
        ensures name[i..][1..][j] != '.'
      {
        assert name[i..][1..][j] == name[i + 1 + j];
      }
    }
  }

  /** `Path.with_suffix(".json")` for a name that has a suffix: the JSON
      sidecar written next to a recording. */
  function Sidecar(name: string): string {
    Stem(name) + ".json"
  }

  /** Whatever the name, its sidecar's suffix is ".json" as soon as the name
      has a suffix of its own, so a sidecar is never a video file. */
  lemma SidecarSuffix(name: string)
    requires HasSuffix(name)
    ensures HasSuffix(Sidecar(name)) && Suffix(Sidecar(name)) == ".json"
  {
    var s := Stem(name);
    var side := Sidecar(name);
    assert |s| > 0;
    assert side[|s|] == '.';
    assert forall j :: |s| < j < |side| ==> side[j] == ".json"[j - |s|];
    assert RFind(side, '.') == |s|;
  }

  /** A non-empty name followed by '.' and a dot-free, non-empty extension
      has that name as its stem. */
  lemma StemWithExtension(x: string, ext: string)
    requires |x| > 0 && |ext| > 0 && '.' !in ext
    ensures Stem(x + ("." + ext)) == x
  {
    var name := x + ("." + ext);
    assert name[|x|] == '.';
    assert forall j :: |x| < j < |name| ==> name[j] == ext[j - |x| - 1];
    assert RFind(name, '.') == |x|;
    assert name[..|x|] == x;
  }

  // ---------------------------------------------------------------------
  // Generated file names
  // ---------------------------------------------------------------------

  datatype FileUtils = FileUtils(baseDir: Path, currentDateDir: Option<Path>, takeCounter: int)

  /** A fresh manager: no dated directory yet, take counter 1. */
  function NewFileUtils(baseDir: Path): (u: FileUtils)
    ensures u.baseDir == baseDir && u.currentDateDir.None? && u.takeCounter == 1
  {
    FileUtils(baseDir, None, 1)
  }

  /** The take number a single '_'-separated token denotes: "take" followed
      by at least one decimal digit. */
  function TakeOf(part: string): (t: Option<nat>)
    ensures t.Some? ==> |part| > 4 && '_' !in part && '.' !in part
  {
    if |part| > 4 && part[..4] == "take" && AllDigits(part[4..]) then Some(Value(part[4..])) else None
  }

  /** "take" followed by the counter padded to at least three digits. */
  function TakeToken(counter: nat): string {
    "take" + PadZeros(Digits(counter), 3)
  }

  /** "_" and the take token, only from the second take on. */
  function TakePart(counter: int): string {
    if counter > 1 then "_" + TakeToken(counter) else ""
  }

  /** "take" and a run of digits reads back as the number they denote. */
  lemma TakeOfDigits(digits: string)
    requires |digits| > 0 && AllDigits(digits)
    ensures TakeOf("take" + digits) == Some(Value(digits))
    ensures '_' !in "take" + digits
  {
    var t := "take" + digits;
    assert t[..4] == "take" && t[4..] == digits;
    assert forall k :: 4 <= k < |t| ==> t[k] == digits[k - 4];
  }

  /** The take token is separator-free and reads back as the counter. */
  lemma TakePartReadsBack(counter: int)
    ensures counter <= 1 ==> TakePart(counter) == ""
    ensures counter > 1 ==> var token := TakeToken(counter);
      && TakePart(counter) == "_" + token
      && |token| >= 7 && '_' !in token && TakeOf(token) == Some(counter)
  {
    if counter > 1 {
      var padded := PadZeros(Digits(counter), 3);
      PaddedDigitsValue(counter, 3);
      TakeOfDigits(padded);
    }
  }

  function CustomPart(customSuffix: string): string {
    if customSuffix != [] then "_" + customSuffix else ""
  }

  datatype Generated = Generated(utils: FileUtils, filename: string)

  /** The part of the name between the "2K{fps}_" field and the extension. */
  function NameBody(counter: int, codec: string, customSuffix: string): string {
    codec + TakePart(counter) + CustomPart(customSuffix)
  }

  /** The part of the name in front of the codec. */
  function Prefix(now: DateTime, fps: int): string {
    DateString(now) + "_" + TimeString(now) + "_" + FpsField(fps) + "_"
  }

  /** The "2K{fps}" field. */
  function FpsField(fps: int): string {
    "2K" + FormatInt(fps)
  }

  /** `generate_filename`: the name for the current take, and the counter
      moved on by one. */
  function GenerateFilename(u: FileUtils, now: DateTime, fps: int, codec: string, container: string,
                            customSuffix: string): (r: Generated)
    ensures r.utils == u.(takeCounter := u.takeCounter + 1)
    ensures EndsWith(r.filename, "." + container)
    ensures |Prefix(now, fps)| <= |r.filename| && r.filename[..|Prefix(now, fps)|] == Prefix(now, fps)
  {
    var filename := Prefix(now, fps) + NameBody(u.takeCounter, codec, customSuffix) + ("." + container);
    ConcatEnds(Prefix(now, fps), NameBody(u.takeCounter, codec, customSuffix), "." + container);
    Generated(u.(takeCounter := u.takeCounter + 1), filename)
  }

  /** The first and last part of a three-part concatenation. */
  lemma ConcatEnds(a: string, b: string, c: string)
    ensures |a| <= |a + b + c| && (a + b + c)[..|a|] == a
    ensures EndsWith(a + b + c, c)
  {
    assert (a + b + c)[|a + b + c| - |c|..] == c;
  }

  lemma NoUnderscoreInPadded(n: nat, width: nat)
    ensures '_' !in PadZeros(Digits(n), width) && '.' !in PadZeros(Digits(n), width)
  {
    var p := PadZeros(Digits(n), width);
    assert forall k :: 0 <= k < |p| ==> IsDigit(p[k]);
  }

  lemma NoUnderscoreInTimeFields(now: DateTime, fps: int)
    ensures '_' !in DateString(now) && '_' !in TimeString(now) && '_' !in FpsField(fps)
  {
    NoUnderscoreInPadded(now.year, 4);
    NoUnderscoreInPadded(now.month, 2);
    NoUnderscoreInPadded(now.day, 2);
    NoUnderscoreInPadded(now.hour, 2);
    NoUnderscoreInPadded(now.minute, 2);
    NoUnderscoreInPadded(now.second, 2);
    var f := FpsField(fps);
    assert forall k :: 2 <= k < |f| ==> f[k] == FormatInt(fps)[k - 2];
  }

  /** A '.' after the head keeps the whole head in the stem. */
  lemma StemKeepsHead(head: string, middle: string, ext: string)
    ensures var name := head + middle + ("." + ext);
      |head| <= |Stem(name)| && Stem(name)[..|head|] == head
  {
    var name := head + middle + ("." + ext);
    var dot := |head + middle|;
    assert name[dot] == '.';
    assert RFind(name, '.') >= dot;
    ConcatEnds(head, middle, "." + ext);
    if HasSuffix(name) {
      assert Stem(name)[..|head|] == name[..|head|];
    }
  }

  /** The stem of every generated name starts with the whole prefix, whatever
      the codec, suffix and container hold. */
  lemma StemKeepsPrefix(u: FileUtils, now: DateTime, fps: int, codec: string, container: string,
                        customSuffix: string)
    ensures var name := GenerateFilename(u, now, fps, codec, container, customSuffix).filename;
      |Prefix(now, fps)| <= |Stem(name)| && Stem(name)[..|Prefix(now, fps)|] == Prefix(now, fps)
  {
    StemKeepsHead(Prefix(now, fps), NameBody(u.takeCounter, codec, customSuffix), container);
  }

  lemma StartsWithSplit(s: string, p: string)
    requires |p| <= |s| && s[..|p|] == p
    ensures s == p + s[|p|..]
  {
    assert s == s[..|p|] + s[|p|..];
  }

  /** Three separator-free fields in front of an arbitrary tail split off
      as three parts. */
  lemma SplitThreeFields(d: string, t: string, g: string, rest: string)
    requires '_' !in d && '_' !in t && '_' !in g
    ensures Split(d + "_" + t + "_" + g + "_" + rest, '_') == [d, t, g] + Split(rest, '_')
  {
    var dt := d + "_" + t;
    var dtg := dt + "_" + g;
    assert d + "_" + t + "_" + g + "_" + rest == dtg + ['_'] + rest;
    SplitAround(dtg, rest, '_');
    assert dtg == dt + ['_'] + g;
    SplitAround(dt, g, '_');
    assert dt == d + ['_'] + t;
    SplitAround(d, t, '_');
    SplitWithoutSeparator(d, '_');
    SplitWithoutSeparator(t, '_');
    SplitWithoutSeparator(g, '_');
  }

  /** A string that starts with three separator-free fields, each followed
      by '_', splits into those fields and at least one more. */
  lemma LeadingFields(stem: string, d: string, t: string, g: string)
    requires '_' !in d && '_' !in t && '_' !in g
    requires var p := d + "_" + t + "_" + g + "_"; |p| <= |stem| && stem[..|p|] == p
    ensures var parts := Split(stem, '_'); |parts| >= 4 && parts[..3] == [d, t, g]
  {
    var p := d + "_" + t + "_" + g + "_";
    StartsWithSplit(stem, p);
    SplitThreeFields(d, t, g, stem[|p|..]);
  }

  /** Any string that starts with the prefix splits into the date, the
      time, "2K{fps}" and at least one more field. */
  lemma FieldsAfterPrefix(stem: string, now: DateTime, fps: int)
    requires |Prefix(now, fps)| <= |stem| && stem[..|Prefix(now, fps)|] == Prefix(now, fps)
    ensures var parts := Split(stem, '_');
      && |parts| >= 4
      && parts[0] == DateString(now)
      && parts[1] == TimeString(now)
      && parts[2] == FpsField(fps)
  {
    NoUnderscoreInTimeFields(now, fps);
    LeadingFields(stem, DateString(now), TimeString(now), FpsField(fps));
    var parts := Split(stem, '_');
    assert parts[0] == parts[..3][0] && parts[1] == parts[..3][1] && parts[2] == parts[..3][2];
  }

  /** The first three '_'-separated fields of a generated stem are the date,
      the time ("HH-MM-SS") and "2K{fps}", and the codec field follows. */
  lemma FilenameFields(u: FileUtils, now: DateTime, fps: int, codec: string, container: string,
                       customSuffix: string)
    ensures var parts := Split(Stem(GenerateFilename(u, now, fps, codec, container, customSuffix).filename), '_');
      && |parts| >= 4
      && parts[0] == DateString(now)
      && parts[1] == TimeString(now)
      && parts[2] == FpsField(fps)
  {
    var name := GenerateFilename(u, now, fps, codec, container, customSuffix).filename;
    StemKeepsPrefix(u, now, fps, codec, container, customSuffix);
    FieldsAfterPrefix(Stem(name), now, fps);
  }

  /** The take field of a name: the take token from the second take on,
      nothing before. */
  function TakeParts(counter: int): seq<string> {
    if counter > 1 then [TakeToken(counter)] else []
  }

  /** The fields of a name body, whatever the counter: the codec's, the
      take token if any, then the custom suffix's. */
  lemma SplitAnyNameBody(counter: int, codec: string, customSuffix: string)
    ensures Split(NameBody(counter, codec, customSuffix), '_')
        == Split(codec, '_') + TakeParts(counter) + CustomParts(customSuffix)
  {
    if counter > 1 {
      SplitNameBody(counter, codec, customSuffix);
      assert Split(codec, '_') + ([TakeToken(counter)] + CustomParts(customSuffix))
          == Split(codec, '_') + [TakeToken(counter)] + CustomParts(customSuffix);
    } else {
      assert NameBody(counter, codec, customSuffix) == codec + CustomPart(customSuffix);
      UntaggedBodyFields(codec, customSuffix);
      assert Split(codec, '_') + TakeParts(counter) == Split(codec, '_');
    }
  }

  lemma UntaggedBodyFields(codec: string, customSuffix: string)
    ensures Split(codec + CustomPart(customSuffix), '_') == Split(codec, '_') + CustomParts(customSuffix)
  {
    if customSuffix == [] {
      assert codec + CustomPart(customSuffix) == codec;
    } else {
      assert codec + CustomPart(customSuffix) == codec + ['_'] + customSuffix;
      SplitAround(codec, customSuffix, '_');
    }
  }

  /** A generated name is "." + container after a base whose '_'-separated
      fields are, in order: the date, the time, "2K{fps}", the codec's
      fields, the take token from the second take on, and the custom
      suffix's fields when it is not empty. */
  lemma GeneratedNameFields(u: FileUtils, now: DateTime, fps: int, codec: string, container: string,
                            customSuffix: string)
    ensures var name := GenerateFilename(u, now, fps, codec, container, customSuffix).filename;
      var cut := |name| - |container| - 1;
      && 0 <= cut
      && name[cut..] == "." + container
      && Split(name[..cut], '_')
         == [DateString(now), TimeString(now), FpsField(fps)] + Split(codec, '_')
            + TakeParts(u.takeCounter) + CustomParts(customSuffix)
  {
    var body := NameBody(u.takeCounter, codec, customSuffix);
    CutExtension(Prefix(now, fps) + body, container);
    PrefixFields(now, fps, body);
    SplitAnyNameBody(u.takeCounter, codec, customSuffix);
    var head := [DateString(now), TimeString(now), FpsField(fps)];
    var c, t, x := Split(codec, '_'), TakeParts(u.takeCounter), CustomParts(customSuffix);
    AppendAssoc3(head, c, t, x);
  }

  /** A name made of a base, '.' and an extension gives both back. */
  lemma CutExtension(base: string, ext: string)
    ensures var name := base + ("." + ext);
      var cut := |name| - |ext| - 1;
      && cut == |base|
      && name[cut..] == "." + ext
      && name[..cut] == base
  {
  }

  /** The prefix contributes the date, time and "2K{fps}" fields in front of
      the fields of whatever follows it. */
  lemma PrefixFields(now: DateTime, fps: int, body: string)
    ensures Split(Prefix(now, fps) + body, '_')
         == [DateString(now), TimeString(now), FpsField(fps)] + Split(body, '_')
  {
    NoUnderscoreInTimeFields(now, fps);
    SplitThreeFields(DateString(now), TimeString(now), FpsField(fps), body);
  }

  // ---------------------------------------------------------------------
  // Take-counter scan
  // ---------------------------------------------------------------------

  /** The largest take any token denotes, 0 when none does. */
  function MaxTake(parts: seq<string>): (m: nat)
    ensures forall k :: 0 <= k < |parts| && TakeOf(parts[k]).Some? ==> TakeOf(parts[k]).value <= m
    ensures m == 0 || exists k :: 0 <= k < |parts| && TakeOf(parts[k]) == Some(m)
  {
    if parts == [] then 0
    else
      var rest := MaxTake(parts[1..]);
      assert forall k :: 1 <= k < |parts| ==> parts[k] == parts[1..][k - 1];
      match TakeOf(parts[0])
      case Some(n) => if n >= rest then n else rest
      case None => rest
  }

  lemma {:induction false} MaxTakeAppend(a: seq<string>, b: seq<string>)
    ensures MaxTake(a + b) == if MaxTake(a) >= MaxTake(b) then MaxTake(a) else MaxTake(b)
  {
    if a != [] {
      assert (a + b)[1..] == a[1..] + b;
      MaxTakeAppend(a[1..], b);
    } else {
      assert a + b == b;
    }
  }

  /** pathlib's `glob("*.mkv")` on one directory. */
  predicate Globbed(name: string) {
    EndsWith(name, ".mkv")
  }

  /** The largest take in a file's stem, counted only when the stem has at
      least two '_'-separated fields. */
  function FileTake(name: string): nat {
    var parts := Split(Stem(name), '_');
    if |parts| >= 2 then MaxTake(parts) else 0
  }

  /** The counter a scan of `listing` must produce: above every take of a
      globbed file, and one above some take unless it is 1. */
  predicate IsNextTake(listing: Listing, counter: int) {
    && (forall name :: name in listing && Globbed(name) ==> FileTake(name) < counter)
    && (counter == 1 || exists name :: name in listing && Globbed(name) && FileTake(name) == counter - 1)
  }

  /** The scan has only one possible outcome. */
  lemma NextTakeUnique(listing: Listing, a: int, b: int)
    requires IsNextTake(listing, a) && IsNextTake(listing, b)
    ensures a == b
  {
  }

  /** The counter computation of `_update_take_counter`: the day's entries
      in any order, every '_'-separated token of every qualifying stem. */
  method ScanTakeCounter(listing: Listing) returns (counter: int)
    ensures IsNextTake(listing, counter)
  {
    var maxTake: nat := 0;
    var pending := listing.Keys;
    while pending != {}
      invariant pending <= listing.Keys
      invariant forall name :: name in listing && name !in pending && Globbed(name) ==> FileTake(name) <= maxTake
      invariant maxTake == 0 || exists name :: name in listing && Globbed(name) && FileTake(name) == maxTake
      decreases pending
    {
      var name :| name in pending;
      if Globbed(name) {
        var parts := Split(Stem(name), '_');
        if |parts| >= 2 {
          var before := maxTake;
          var k := 0;
          while k < |parts|
            invariant 0 <= k <= |parts|
            invariant before <= maxTake
            invariant forall j :: 0 <= j < k && TakeOf(parts[j]).Some? ==> TakeOf(parts[j]).value <= maxTake
            invariant maxTake == before || exists j :: 0 <= j < k && TakeOf(parts[j]) == Some(maxTake)
          {
            match TakeOf(parts[k]) {
              case Some(n) =>
                if n > maxTake {
                  maxTake := n;
                }
              case None =>
            }
            k := k + 1;
          }
          assert FileTake(name) == MaxTake(parts);
        }
      }
      pending := pending - {name};
    }
    counter := maxTake + 1;
  }

  /** `_update_take_counter`: nothing happens before a dated directory has
      been chosen; afterwards the counter is recomputed from its contents. */
  method RefreshTakeCounter(u: FileUtils, contents: Listing) returns (r: FileUtils)
    ensures u.currentDateDir.None? ==> r == u
    ensures u.currentDateDir.Some? ==> r == u.(takeCounter := r.takeCounter) && IsNextTake(contents, r.takeCounter)
  {
    if u.currentDateDir.None? {
      return u;
    }
    var counter := ScanTakeCounter(contents);
    r := u.(takeCounter := counter);
  }

  /** A token free of take numbers contributes nothing to the scan. */
  predicate TakeFree(s: string) {
    forall k :: 0 <= k < |Split(s, '_')| ==> TakeOf(Split(s, '_')[k]).None?
  }

  /** The fields the custom suffix adds: none when it is empty. */
  function CustomParts(customSuffix: string): seq<string> {
    if customSuffix == [] then [] else Split(customSuffix, '_')
  }

  /** A separator after the first part splits the string there. */
  lemma SplitAfterSeparator(a: string, b: string, c: string)
    ensures Split(a + ("_" + b) + c, '_') == Split(a, '_') + Split(b + c, '_')
  {
    assert a + ("_" + b) + c == a + ['_'] + (b + c);
    SplitAround(a, b + c, '_');
  }

  /** The '_'-separated fields of a name body: the codec's, then the take
      token, then the custom suffix's. */
  lemma SplitNameBody(counter: int, codec: string, customSuffix: string)
    requires counter > 1
    ensures Split(NameBody(counter, codec, customSuffix), '_')
        == Split(codec, '_') + ([TakeToken(counter)] + CustomParts(customSuffix))
  {
    var token := TakeToken(counter);
    var custom := CustomPart(customSuffix);
    TakePartReadsBack(counter);
    SplitAfterSeparator(codec, token, custom);
    SplitWithoutSeparator(token, '_');
    if customSuffix == [] {
      assert token + custom == token;
    } else {
      assert token + custom == token + ['_'] + customSuffix;
      SplitAround(token, customSuffix, '_');
    }
  }

  /** The take a name body carries: at least the counter, exactly the
      counter when codec and custom suffix are free of take tokens. */
  lemma MaxTakeOfBody(n: int, codec: string, customSuffix: string)
    requires n > 1
    ensures MaxTake(Split(NameBody(n, codec, customSuffix), '_')) >= n
    ensures TakeFree(codec) && TakeFree(customSuffix)
        ==> MaxTake(Split(NameBody(n, codec, customSuffix), '_')) == n
  {
    var token := TakeToken(n);
    SplitNameBody(n, codec, customSuffix);
    TakePartReadsBack(n);
    MaxTakeAppend(Split(codec, '_'), [token] + CustomParts(customSuffix));
    MaxTakeAppend([token], CustomParts(customSuffix));
    assert MaxTake([token]) == n;
  }

  /** The take a generated stem carries, the prefix fields adding none. */
  lemma TakeOfGeneratedStem(now: DateTime, fps: int, n: int, codec: string, customSuffix: string)
    requires n > 1
    ensures var parts := Split(Prefix(now, fps) + NameBody(n, codec, customSuffix), '_');
      && |parts| >= 2
      && MaxTake(parts) >= n
      && (TakeFree(codec) && TakeFree(customSuffix) ==> MaxTake(parts) == n)
  {
    var body := NameBody(n, codec, customSuffix);
    NoUnderscoreInTimeFields(now, fps);
    SplitThreeFields(DateString(now), TimeString(now), FpsField(fps), body);
    HeadFieldsTakeFree(now, fps);
    MaxTakeAppend([DateString(now), TimeString(now), FpsField(fps)], Split(body, '_'));
    MaxTakeOfBody(n, codec, customSuffix);
  }

  /** "mkv" is a dot-free extension that spells ".mkv" once dotted. */
  lemma MkvExtension()
    ensures "." + "mkv" == ".mkv" && |"mkv"| > 0 && '.' !in "mkv"
  {
  }

  /** Round trip: an `.mkv` name generated from counter `n > 1` scans back
      to at least `n`, and to exactly `n` when neither the codec nor the
      custom suffix holds a take token. */
  lemma GeneratedTakeParsesBack(u: FileUtils, now: DateTime, fps: int, codec: string, customSuffix: string)
    requires u.takeCounter > 1
    ensures var name := GenerateFilename(u, now, fps, codec, "mkv", customSuffix).filename;
      && Globbed(name)
      && FileTake(name) >= u.takeCounter
      && (TakeFree(codec) && TakeFree(customSuffix) ==> FileTake(name) == u.takeCounter)
  {
    var name := GenerateFilename(u, now, fps, codec, "mkv", customSuffix).filename;
    MkvExtension();
    var stem := Prefix(now, fps) + NameBody(u.takeCounter, codec, customSuffix);
    StemWithExtension(stem, "mkv");
    assert Stem(name) == stem;
    TakeOfGeneratedStem(now, fps, u.takeCounter, codec, customSuffix);
  }

  /** A token that starts with a digit is no take token. */
  lemma DigitLedIsNoTake(part: string)
    requires |part| > 0 && IsDigit(part[0])
    ensures TakeOf(part).None?
  {
    if |part| > 4 {
      assert part[..4][0] == part[0];
    }
  }

  /** Date, time and "2K{fps}" each start with a digit, so none is a take
      token. */
  lemma HeadFieldsTakeFree(now: DateTime, fps: int)
    ensures MaxTake([DateString(now), TimeString(now), FpsField(fps)]) == 0
  {
    var y, h := PadZeros(Digits(now.year), 4), PadZeros(Digits(now.hour), 2);
    var d, t, g := DateString(now), TimeString(now), FpsField(fps);
    assert IsDigit(y[0]) && IsDigit(h[0]);
    assert d[0] == y[0] && t[0] == h[0] && g[0] == '2';
    DigitLedIsNoTake(d);
    DigitLedIsNoTake(t);
    DigitLedIsNoTake(g);
    assert [d, t, g][1..] == [t, g] && [t, g][1..] == [g] && [g][1..] == [];
  }

  /** After a file has been written, rescanning its directory yields a
      counter above its take. */
  lemma RescanExceedsWrittenTake(listing: Listing, u: FileUtils, now: DateTime, fps: int, codec: string,
                                 customSuffix: string, counter: int)
    requires u.takeCounter > 1
    requires GenerateFilename(u, now, fps, codec, "mkv", customSuffix).filename in listing
    requires IsNextTake(listing, counter)
    ensures counter > u.takeCounter
  {
    GeneratedTakeParsesBack(u, now, fps, codec, customSuffix);
  }

  // ---------------------------------------------------------------------
  // Next file path
  // ---------------------------------------------------------------------

  /** `get_next_filepath`: choose today's directory (from the clock reading
      `today`), recompute the counter from that directory's `contents`, then
      name the file from the clock reading `now`. */
  method GetNextFilepath(u: FileUtils, today: DateTime, contents: Listing, now: DateTime, fps: int, codec: string,
                         container: string, customSuffix: string) returns (r: FileUtils, path: Path)
    ensures r.baseDir == u.baseDir
    ensures r.currentDateDir == Some(u.baseDir + [DateString(today)])
    ensures IsNextTake(contents, r.takeCounter - 1)
    ensures path == u.baseDir + [DateString(today)]
                    + [GenerateFilename(r.(takeCounter := r.takeCounter - 1), now, fps, codec, container,
                                        customSuffix).filename]
    ensures container == "mkv" && r.takeCounter - 1 > 1 ==> path[|path| - 1] !in contents
  {
    var dateDir := u.baseDir + [DateString(today)];
    var chosen := u.(currentDateDir := Some(dateDir));
    var refreshed := RefreshTakeCounter(chosen, contents);
    var generated := GenerateFilename(refreshed, now, fps, codec, container, customSuffix);
    r := generated.utils;
    path := dateDir + [generated.filename];
    assert r.(takeCounter := r.takeCounter - 1) == refreshed;
    assert path[|path| - 1] == generated.filename;
    if container == "mkv" && refreshed.takeCounter > 1 {
      GeneratedTakeParsesBack(refreshed, now, fps, codec, customSuffix);
      AboveEveryTakeIsNew(contents, refreshed.takeCounter, generated.filename);
    }
  }

  /** A globbed name whose take reaches the scanned counter is not in the
      scanned directory. */
  lemma AboveEveryTakeIsNew(listing: Listing, counter: int, name: string)
    requires IsNextTake(listing, counter)
    requires Globbed(name) && FileTake(name) >= counter
    ensures name !in listing
  {
  }

  // ---------------------------------------------------------------------
  // The untagged first take
  // ---------------------------------------------------------------------

  /** A string free of take tokens contributes take 0. */
  lemma TakeFreeFields(s: string)
    requires TakeFree(s)
    ensures MaxTake(Split(s, '_')) == 0
  {
  }

  /** A name generated before the second take carries no take token: with
      a take-free codec and suffix its stem scans as take 0. */
  lemma UntaggedGeneratedTake(u: FileUtils, now: DateTime, fps: int, codec: string, customSuffix: string)
    requires u.takeCounter <= 1 && TakeFree(codec) && TakeFree(customSuffix)
    ensures var name := GenerateFilename(u, now, fps, codec, "mkv", customSuffix).filename;
      Globbed(name) && FileTake(name) == 0
  {
    var name := GenerateFilename(u, now, fps, codec, "mkv", customSuffix).filename;
    var base := Prefix(now, fps) + NameBody(u.takeCounter, codec, customSuffix);
    MkvExtension();
    StemWithExtension(base, "mkv");
    GeneratedNameFields(u, now, fps, codec, "mkv", customSuffix);
    assert name == base + ("." + "mkv");
    assert name[..|name| - 4] == base;
    UntaggedFieldsTakeFree(now, fps, codec, customSuffix);
  }

  /** The fields of an untagged name with a take-free codec and suffix
      carry no take. */
  lemma UntaggedFieldsTakeFree(now: DateTime, fps: int, codec: string, customSuffix: string)
    requires TakeFree(codec) && TakeFree(customSuffix)
    ensures MaxTake([DateString(now), TimeString(now), FpsField(fps)] + Split(codec, '_') + TakeParts(1)
                    + CustomParts(customSuffix)) == 0
  {
    var head := [DateString(now), TimeString(now), FpsField(fps)];
    var custom := CustomParts(customSuffix);
    assert TakeParts(1) == [];
    assert head + Split(codec, '_') + TakeParts(1) + custom == head + Split(codec, '_') + custom;
    HeadFieldsTakeFree(now, fps);
    TakeFreeFields(codec);
    if customSuffix != [] {
      TakeFreeFields(customSuffix);
    }
    assert MaxTake(custom) == 0;
    MaxTakeAppend(head, Split(codec, '_'));
    MaxTakeAppend(head + Split(codec, '_'), custom);
  }

  /** As written, the first take of a day never moves the counter: once its
      untagged `.mkv` file is in the directory, a rescan still yields 1, and
      the name generated from that counter in the same second is the name
      of the file already there. */
  lemma UntaggedTakeKeepsCounterAtOne(contents: Listing, e: Entry, u: FileUtils, now: DateTime, fps: int,
                                      codec: string, customSuffix: string, counter: int)
    requires u.takeCounter == 1 && TakeFree(codec) && TakeFree(customSuffix)
    requires IsNextTake(contents, 1)
    requires IsNextTake(contents[GenerateFilename(u, now, fps, codec, "mkv", customSuffix).filename := e], counter)
    ensures counter == 1
    ensures GenerateFilename(u.(takeCounter := counter), now, fps, codec, "mkv", customSuffix).filename
         == GenerateFilename(u, now, fps, codec, "mkv", customSuffix).filename
  {
    var name := GenerateFilename(u, now, fps, codec, "mkv", customSuffix).filename;
    var after := contents[name := e];
    UntaggedGeneratedTake(u, now, fps, codec, customSuffix);
    assert IsNextTake(after, 1);
    NextTakeUnique(after, 1, counter);
  }

  /** The take a file counts for when every dated recording counts as a
      take: a name with at least two fields and no take token is the first
      take. */
  function CountedTake(name: string): nat {
    var parts := Split(Stem(name), '_');
    if |parts| >= 2 && MaxTake(parts) == 0 then 1 else FileTake(name)
  }

  /** The counter a corrected scan must produce: above every counted take of
      a globbed file, and one above some counted take unless it is 1. */
  predicate IsNextCountedTake(listing: Listing, counter: int) {
    && (forall name :: name in listing && Globbed(name) ==> CountedTake(name) < counter)
    && (counter == 1 || exists name :: name in listing && Globbed(name) && CountedTake(name) == counter - 1)
  }

  /** The corrected scan: the largest counted take of the globbed files,
      plus one. */
  method ScanCountedTakes(listing: Listing) returns (counter: int)
    ensures IsNextCountedTake(listing, counter)
  {
    var maxTake: nat := 0;
    var pending := listing.Keys;
    while pending != {}
      invariant pending <= listing.Keys
      invariant forall name :: name in listing && name !in pending && Globbed(name) ==> CountedTake(name) <= maxTake
      invariant maxTake == 0 || exists name :: name in listing && Globbed(name) && CountedTake(name) == maxTake
      decreases pending
    {
      var name :| name in pending;
      if Globbed(name) && CountedTake(name) > maxTake {
        maxTake := CountedTake(name);
      }
      pending := pending - {name};
    }
    counter := maxTake + 1;
  }

  /** Every generated `.mkv` name counts for at least the counter it was
      generated from, the untagged first take included. */
  lemma GeneratedCountedTake(u: FileUtils, now: DateTime, fps: int, codec: string, customSuffix: string)
    ensures var name := GenerateFilename(u, now, fps, codec, "mkv", customSuffix).filename;
      Globbed(name) && CountedTake(name) >= u.takeCounter && CountedTake(name) >= 1
  {
    var name := GenerateFilename(u, now, fps, codec, "mkv", customSuffix).filename;
    MkvExtension();
    FilenameFields(u, now, fps, codec, "mkv", customSuffix);
    if u.takeCounter > 1 {
      GeneratedTakeParsesBack(u, now, fps, codec, customSuffix);
    }
  }

  /** With the corrected scan, a rescan after the file is written yields a
      counter above the counter the file was named from, for every take. */
  lemma RescanCountedExceedsWrittenTake(listing: Listing, u: FileUtils, now: DateTime, fps: int, codec: string,
                                        customSuffix: string, counter: int)
    requires GenerateFilename(u, now, fps, codec, "mkv", customSuffix).filename in listing
    requires IsNextCountedTake(listing, counter)
    ensures counter > u.takeCounter && counter >= 2
  {
    GeneratedCountedTake(u, now, fps, codec, customSuffix);
  }

  /** With the corrected scan, the untagged first take moves the counter to
      2, so the next name carries "_take002". */
  lemma CountedFirstTakeTagsSecond(contents: Listing, e: Entry, u: FileUtils, now: DateTime, fps: int,
                                   codec: string, customSuffix: string, counter: int)
    requires u.takeCounter == 1 && TakeFree(codec) && TakeFree(customSuffix)
    requires IsNextCountedTake(contents, 1)
    requires IsNextCountedTake(contents[GenerateFilename(u, now, fps, codec, "mkv", customSuffix).filename := e],
                               counter)
    ensures counter == 2
    ensures TakeParts(counter) == [TakeToken(2)]
  {
    var name := GenerateFilename(u, now, fps, codec, "mkv", customSuffix).filename;
    UntaggedGeneratedTake(u, now, fps, codec, customSuffix);
    GeneratedCountedTake(u, now, fps, codec, customSuffix);
    assert CountedTake(name) == 1;
  }

  /** `get_next_filepath` with the corrected scan: the same path shape, and
      an `.mkv` name that is never already in the directory, the first take
      included. */
  method GetNextFilepathCounted(u: FileUtils, today: DateTime, contents: Listing, now: DateTime, fps: int,
                                codec: string, container: string, customSuffix: string)
    returns (r: FileUtils, path: Path)
    ensures r.baseDir == u.baseDir
    ensures r.currentDateDir == Some(u.baseDir + [DateString(today)])
    ensures IsNextCountedTake(contents, r.takeCounter - 1)
    ensures path == u.baseDir + [DateString(today)]
                    + [GenerateFilename(r.(takeCounter := r.takeCounter - 1), now, fps, codec, container,
                                        customSuffix).filename]
    ensures container == "mkv" ==> path[|path| - 1] !in contents
  {
    var dateDir := u.baseDir + [DateString(today)];
    var counter := ScanCountedTakes(contents);
    var refreshed := u.(currentDateDir := Some(dateDir), takeCounter := counter);
    var generated := GenerateFilename(refreshed, now, fps, codec, container, customSuffix);
    r := generated.utils;
    path := dateDir + [generated.filename];
    assert r.(takeCounter := r.takeCounter - 1) == refreshed;
    assert path[|path| - 1] == generated.filename;
    if container == "mkv" {
      GeneratedCountedTake(refreshed, now, fps, codec, customSuffix);
    }
  }

  // ---------------------------------------------------------------------
  // Cleanup of incomplete recordings
  // ---------------------------------------------------------------------

  const MinCompleteSize: nat := 1024

  /** A regular file with a video suffix and fewer than 1024 bytes. */
  predicate Incomplete(name: string, e: Entry) {
    e.File? && IsVideo(name) && e.size < MinCompleteSize
  }

  /** The suffixes cleanup treats as recordings. */
  predicate IsVideo(name: string) {
    Suffix(name) == ".mkv" || Suffix(name) == ".mp4"
  }

  /** An entry cleanup deletes: an incomplete recording, or the sidecar of
      one. */
  predicate Doomed(listing: Listing, n: string) {
    || (n in listing && Incomplete(n, listing[n]))
    || exists v :: v in listing && Incomplete(v, listing[v]) && Sidecar(v) == n
  }

  /** The contents a finished cleanup leaves, described without an order. */
  function Survivors(listing: Listing): Listing {
    map n | n in listing && !Doomed(listing, n) :: listing[n]
  }

  /** Cleanup raises, and stops, when it tries to unlink a sidecar that is a
      directory. */
  predicate BlockedSidecar(listing: Listing) {
    exists v :: v in listing && Incomplete(v, listing[v]) && Sidecar(v) in listing && listing[Sidecar(v)].Directory?
  }

  datatype CleanupResult = CleanupResult(listing: Listing, finished: bool)

  /** The loop of `cleanup_incomplete_files` over the names in the order the
      directory yields them. */
  function CleanupFrom(listing: Listing, order: seq<string>): (r: CleanupResult)
    ensures r.listing.Keys <= listing.Keys
    ensures forall n :: n in r.listing ==> r.listing[n] == listing[n]
    decreases |order|
  {
    if order == [] then CleanupResult(listing, true)
    else
      var name := order[0];
      if name in listing && Incomplete(name, listing[name]) then
        var remaining := listing - {name};
        var side := Sidecar(name);
        if side in remaining && remaining[side].Directory? then CleanupResult(remaining, false)
        else CleanupFrom(remaining - {side}, order[1..])
      else CleanupFrom(listing, order[1..])
  }

  /** `cleanup_incomplete_files`: nothing happens without a dated directory
      or when it does not exist; `order` is the order of its entries. */
  function CleanupIncompleteFiles(u: FileUtils, contents: Option<Listing>, order: seq<string>): (r: Option<CleanupResult>)
    ensures r.Some? <==> u.currentDateDir.Some? && contents.Some?
    ensures r.Some? ==> r.value.listing.Keys <= contents.value.Keys
  {
    if u.currentDateDir.None? || contents.None? then None
    else Some(CleanupFrom(contents.value, order))
  }

  /** An entry doomed in a listing was already doomed before anything was
      removed from it. */
  lemma DoomedInSubListing(listing: Listing, rest: Listing, n: string)
    requires rest.Keys <= listing.Keys && forall k :: k in rest ==> rest[k] == listing[k]
    requires n in rest && Doomed(rest, n)
    ensures Doomed(listing, n)
  {
    if !Incomplete(n, rest[n]) {
      var v :| v in rest && Incomplete(v, rest[v]) && Sidecar(v) == n;
      assert v in listing && listing[v] == rest[v];
    }
  }

  /** Removing one incomplete recording and its sidecar keeps every other
      doomed entry doomed. */
  lemma DoomedKeptAfterRemoval(listing: Listing, name: string, n: string)
    requires name in listing && Incomplete(name, listing[name])
    requires n in listing - {name} - {Sidecar(name)} && Doomed(listing, n)
    ensures Doomed(listing - {name} - {Sidecar(name)}, n)
  {
    var rest := listing - {name} - {Sidecar(name)};
    if !Incomplete(n, listing[n]) {
      var v :| v in listing && Incomplete(v, listing[v]) && Sidecar(v) == n;
      SidecarIsNoVideo(listing, name, Sidecar(name));
      assert v != Sidecar(name) && v != name;
      RemovalKeeps(listing, name, Sidecar(name), v);
    }
  }

  /** Removing two names leaves every other entry as it was. */
  lemma RemovalKeeps(listing: Listing, a: string, b: string, v: string)
    requires v in listing && v != a && v != b
    ensures v in listing - {a} - {b} && (listing - {a} - {b})[v] == listing[v]
  {
  }

  /** Removing one incomplete recording and its sidecar does not change
      whether any other entry is doomed. */
  lemma DoomedAfterRemoval(listing: Listing, name: string, n: string)
    requires name in listing && Incomplete(name, listing[name])
    requires n in listing - {name} - {Sidecar(name)}
    ensures Doomed(listing - {name} - {Sidecar(name)}, n) <==> Doomed(listing, n)
  {
    if Doomed(listing, n) {
      DoomedKeptAfterRemoval(listing, name, n);
    }
    if Doomed(listing - {name} - {Sidecar(name)}, n) {
      DoomedInSubListing(listing, listing - {name} - {Sidecar(name)}, n);
    }
  }

  /** Removing one incomplete recording and its sidecar does not change
      what is doomed among the rest. */
  lemma SurvivorsAfterRemoval(listing: Listing, name: string)
    requires name in listing && Incomplete(name, listing[name])
    ensures Survivors(listing - {name} - {Sidecar(name)}) == Survivors(listing)
    ensures BlockedSidecar(listing - {name} - {Sidecar(name)}) ==> BlockedSidecar(listing)
  {
    var rest := listing - {name} - {Sidecar(name)};
    forall n | n in rest
      ensures Doomed(rest, n) <==> Doomed(listing, n)
    {
      DoomedAfterRemoval(listing, name, n);
    }
    assert Doomed(listing, name);
    assert Doomed(listing, Sidecar(name));
    assert Survivors(rest).Keys == Survivors(listing).Keys;
  }

  /** A finished cleanup leaves exactly the survivors: when the order visits
      every incomplete recording and none of them has a directory for a
      sidecar, the run finishes and the contents are `Survivors(listing)`. */
  lemma {:induction false} CleanupRemovesExactly(listing: Listing, order: seq<string>)
    requires forall n :: n in listing && Incomplete(n, listing[n]) ==> n in order
    requires !BlockedSidecar(listing)
    ensures CleanupFrom(listing, order) == CleanupResult(Survivors(listing), true)
  {
    if order == [] {
      assert Survivors(listing) == listing;
    } else {
      var name := order[0];
      if name in listing && Incomplete(name, listing[name]) {
        var rest := listing - {name} - {Sidecar(name)};
        SurvivorsAfterRemoval(listing, name);
        forall n | n in rest && Incomplete(n, rest[n])
          ensures n in order[1..]
        {
          assert n in order && n != order[0];
        }
        CleanupRemovesExactly(rest, order[1..]);
      } else {
        forall n | n in listing && Incomplete(n, listing[n])
          ensures n in order[1..]
        {
          assert n in order && n != order[0];
        }
        CleanupRemovesExactly(listing, order[1..]);
      }
    }
  }

  /** A sidecar never has a video suffix, so it is never the name of an
      incomplete recording. */
  lemma SidecarIsNoVideo(listing: Listing, v: string, n: string)
    requires v in listing && Incomplete(v, listing[v])
    requires n == Sidecar(v)
    ensures Suffix(n) == ".json" && !IsVideo(n)
  {
    SidecarSuffix(v);
  }

  /** With a directory in the way the run stops early: if some incomplete
      recording's sidecar is a directory and the order visits every
      incomplete recording, the cleanup does not finish. */
  lemma {:induction false} BlockedCleanupStops(listing: Listing, order: seq<string>)
    requires forall n :: n in listing && Incomplete(n, listing[n]) ==> n in order
    requires BlockedSidecar(listing)
    ensures !CleanupFrom(listing, order).finished
  {
    var v :| v in listing && Incomplete(v, listing[v]) && Sidecar(v) in listing && listing[Sidecar(v)].Directory?;
    assert v in order;
    var name := order[0];
    if name in listing && Incomplete(name, listing[name]) {
      var side := Sidecar(name);
      var remaining := listing - {name};
      if !(side in remaining && remaining[side].Directory?) {
        var rest := remaining - {side};
        BlockedSurvivesRemoval(listing, name);
        forall n | n in rest && Incomplete(n, rest[n])
          ensures n in order[1..]
        {
          assert n in order && n != order[0];
        }
        BlockedCleanupStops(rest, order[1..]);
      }
    } else {
      forall n | n in listing && Incomplete(n, listing[n])
        ensures n in order[1..]
      {
        assert n in order && n != order[0];
      }
      BlockedCleanupStops(listing, order[1..]);
    }
  }

  /** Removing a recording whose own sidecar is no directory leaves any
      other blocked sidecar in place. */
  lemma BlockedSurvivesRemoval(listing: Listing, name: string)
    requires name in listing && Incomplete(name, listing[name])
    requires BlockedSidecar(listing)
    requires !(Sidecar(name) in listing - {name} && (listing - {name})[Sidecar(name)].Directory?)
    ensures BlockedSidecar(listing - {name} - {Sidecar(name)})
  {
    var side := Sidecar(name);
    var rest := listing - {name} - {side};
    var v :| v in listing && Incomplete(v, listing[v]) && Sidecar(v) in listing && listing[Sidecar(v)].Directory?;
    SidecarIsNoVideo(listing, v, Sidecar(v));
    SidecarIsNoVideo(listing, name, side);
    assert Sidecar(v) != name && v != side;
    assert Sidecar(v) != side by {
      assert Sidecar(v) in listing - {name};
    }
    assert v != name;
    RemovalKeeps(listing, name, side, v);
    RemovalKeeps(listing, name, side, Sidecar(v));
  }

  /** The cleanup finishes exactly when no incomplete recording has a
      directory for a sidecar. */
  lemma CleanupFinishesIff(listing: Listing, order: seq<string>)
    requires forall n :: n in listing && Incomplete(n, listing[n]) ==> n in order
    ensures CleanupFrom(listing, order).finished <==> !BlockedSidecar(listing)
  {
    if BlockedSidecar(listing) {
      BlockedCleanupStops(listing, order);
    } else {
      CleanupRemovesExactly(listing, order);
    }
  }

  /** A recording of at least 1024 bytes survives with its entry unchanged. */
  lemma CompleteVideosSurvive(listing: Listing, n: string)
    requires n in listing && listing[n].File? && listing[n].size >= MinCompleteSize
    requires Suffix(n) == ".mkv" || Suffix(n) == ".mp4"
    ensures n in Survivors(listing) && Survivors(listing)[n] == listing[n]
  {
    if exists v :: v in listing && Incomplete(v, listing[v]) && Sidecar(v) == n {
      var v :| v in listing && Incomplete(v, listing[v]) && Sidecar(v) == n;
      SidecarIsNoVideo(listing, v, n);
    }
  }

  /** Running the cleanup again over what a finished run left changes
      nothing. */
  lemma CleanupIdempotent(listing: Listing, order: seq<string>)
    requires forall n :: n in listing && Incomplete(n, listing[n]) ==> n in order
    requires !BlockedSidecar(listing)
    ensures var once := CleanupFrom(listing, order).listing;
      CleanupFrom(once, order) == CleanupResult(once, true)
  {
    CleanupRemovesExactly(listing, order);
    var once := Survivors(listing);
    forall n | n in once
      ensures !Doomed(once, n)
    {
      assert !(exists v :: v in once && Incomplete(v, once[v]) && Sidecar(v) == n);
    }
    assert Survivors(once) == once;
    CleanupRemovesExactly(once, order);
  }
}
