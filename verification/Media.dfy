/** Photographs and their ladder of sizes: what Save writes and what Sources later
    names (internal/media/media.go). Encoding and hashing are foreign; a stored
    photograph is known here by the stem its bytes hash to. */
module Media {
  import opened Common
  import opened Decimal

  const URL_PREFIX := "/media/"
  const MAX_EDGE := 2400
  const LADDER: seq<int> := [480, 960, 1600, MAX_EDGE]

  // ---------------------------------------------------------------- names

  function Rung(stem: string, width: nat, ext: string): string {
    stem + "-w" + Itoa(width) + ext
  }

  /** path.Ext: from the last dot of the last element, or nothing. */
  function Ext(name: string): (e: string)
    ensures |e| <= |name| && name[|name| - |e|..] == e
  {
    if |name| == 0 || name[|name| - 1] == '/' then ""
    else if name[|name| - 1] == '.' then "."
    else
      var e := Ext(name[..|name| - 1]);
      if e == "" then ""
      else
        assert name[|name| - 1 - |e|..] == e + [name[|name| - 1]];
        e + [name[|name| - 1]]
  }

  /** Where "-w" last begins, -1 when it does not occur. */
  function LastMark(s: string): (at: int)
    ensures -1 <= at && (at >= 0 ==> at + 2 <= |s| && s[at] == '-' && s[at + 1] == 'w')
    ensures forall k :: at < k < |s| - 1 ==> !(s[k] == '-' && s[k + 1] == 'w')
  {
    if |s| < 2 then -1
    else if s[|s| - 2] == '-' && s[|s| - 1] == 'w' then |s| - 2
    else LastMark(s[..|s| - 1])
  }

  function WithoutExt(name: string): string {
    name[..|name| - |Ext(name)|]
  }

  function SplitBase(base: string): Option<(string, int)> {
    var at := LastMark(base);
    if at < 1 then None
    else
      match Atoi(base[at + 2..])
      case None => None
      case Some(width) => if width < 1 then None else Some((base[..at], width))
  }

  /** A stored name taken apart again: None for anything without that shape. */
  function Split(name: string): Option<(string, int)> {
    SplitBase(WithoutExt(name))
  }

  /** What stands where the width does. */
  function NumberIn(base: string): string
    requires SplitBase(base).Some?
  {
    base[LastMark(base) + 2..]
  }

  /** ".jpg" and the like: a dot, then neither a dot nor a slash. */
  predicate IsExt(ext: string) {
    |ext| > 0 && ext[0] == '.' && forall i :: 1 <= i < |ext| ==> ext[i] != '.' && ext[i] != '/'
  }

  lemma {:induction false} ExtOf(base: string, ext: string)
    requires IsExt(ext)
    ensures Ext(base + ext) == ext
  {
    var name := base + ext;
    if |ext| == 1 {
      assert ext == ".";
    } else {
      ExtOf(base, ext[..|ext| - 1]);
      assert name[..|name| - 1] == base + ext[..|ext| - 1];
    }
  }

  lemma {:induction false} MarkOf(stem: string, digits: string)
    requires AllDigits(digits)
    ensures LastMark(stem + "-w" + digits) == |stem|
  {
    var s := stem + "-w" + digits;
    var at := LastMark(s);
    assert s[|stem|] == '-' && s[|stem| + 1] == 'w';
    forall k | |stem| + 1 < k < |s| ensures s[k] != 'w' {
      assert s[k] == digits[k - 2 - |stem|];
    }
  }

  /** Taking a name apart gives back what it was put together from, for any stem. */
  lemma {:induction false} SplitInvertsRung(stem: string, width: nat, ext: string)
    requires IsExt(ext) && width <= MAX_INT64
    ensures Split(Rung(stem, width, ext)) == if width >= 1 && |stem| > 0 then Some((stem, width)) else None
  {
    var base := stem + "-w" + Itoa(width);
    ItoaReadsBack(width);
    ExtOf(base, ext);
    assert (base + ext)[..|base|] == base;
    MarkOf(stem, Itoa(width));
    assert base[|stem| + 2..] == Itoa(width) && base[..|stem|] == stem;
    AtoiInvertsItoa(width);
  }

  lemma {:induction false} BaseIsItsParts(base: string)
    requires SplitBase(base).Some?
    ensures var (stem, width) := SplitBase(base).value;
      base == stem + "-w" + NumberIn(base) && width >= 1 && Atoi(NumberIn(base)) == Some(width)
  {
    var at := LastMark(base);
    hide Atoi, LastMark;
    assert base == base[..at] + base[at..at + 2] + base[at + 2..];
    assert base[at..at + 2] == "-w";
  }

  lemma {:induction false} PlainExactlyWhenWrittenSo(digits: string, width: nat)
    requires width >= 1 && Atoi(digits) == Some(width)
    ensures Itoa(width) == digits <==> Plain(digits)
  {
    ItoaReadsBack(width);
    if Plain(digits) {
      PlainIsItoa(digits);
      assert IsDigit(digits[0]);
    }
  }

  /** The other way round it accepts more than it should: a zero or a plus sign before
      the number is read past, so a name nothing here wrote is taken for a rung. A name
      that splits is the rung it splits into exactly when its number is written as a
      number is. */
  lemma {:induction false} RungInvertsSplitExactlyWhenTheNumberIsPlain(name: string)
    requires Split(name).Some?
    ensures var (stem, width) := Split(name).value;
      Rung(stem, width, Ext(name)) == name <==> Plain(NumberIn(WithoutExt(name)))
  {
    var base, ext := WithoutExt(name), Ext(name);
    var stem, width, digits := Split(name).value.0, Split(name).value.1, NumberIn(base);
    assert name == base + ext;
    BaseIsItsParts(base);
    PlainExactlyWhenWrittenSo(digits, width);
    hide Atoi, Itoa, Ext, SplitBase, NumberIn, Plain;
    if Rung(stem, width, ext) == name {
      SameMiddle(stem + "-w", Itoa(width), digits, ext);
    }
  }

  lemma {:induction false} SameMiddle(a: string, x: string, y: string, b: string)
    requires a + x + b == a + y + b
    ensures x == y
  {
    assert |x| == |y|;
    forall i | 0 <= i < |x| ensures x[i] == y[i] {
      assert (a + x + b)[|a| + i] == (a + y + b)[|a| + i];
    }
  }

  predicate Plain(digits: string) {
    |digits| > 0 && AllDigits(digits) && digits[0] != '0'
  }

  lemma {:induction false} PlainIsItoa(digits: string)
    requires Plain(digits)
    ensures Value(digits) > 0 && Itoa(Value(digits)) == digits
  {
    var init, last := digits[..|digits| - 1], digits[|digits| - 1];
    if |digits| == 1 {
      assert init == "" && digits == [last];
    } else {
      PlainIsItoa(init);
      assert digits == init + [last];
    }
  }

  lemma {:induction false} SevenWithZeros()
    ensures AllDigits("007") && Value("007") == 7 && Itoa(7) == "7"
  {
    LeadingZero("7");
    LeadingZero("07");
    assert "0" + "7" == "07" && "0" + "07" == "007";
    assert "7"[..0] == "" && Value("7") == 7;
  }

  /** "x-w007.jpg" is taken for a rung, and no rung is written so. */
  lemma {:induction false} ZeroPaddedNameIsTakenForARung()
    ensures Split("x" + "-w" + "007" + ".jpg") == Some(("x", 7)) && Rung("x", 7, ".jpg") != "x" + "-w" + "007" + ".jpg"
  {
    var base := "x" + "-w" + "007";
    SevenWithZeros();
    ExtOf(base, ".jpg");
    MarkOf("x", "007");
    hide Value, Itoa, Ext, LastMark, AllDigits;
    assert (base + ".jpg")[..|base|] == base;
    assert base[3..] == "007" && base[..1] == "x";
    assert |Rung("x", 7, ".jpg")| == 8;
  }

  /** path.Base. */
  function Base(p: string): string {
    if |p| == 0 then "."
    else
      var t := TrimSlashes(p);
      if |t| == 0 then "/" else AfterSlash(t)
  }

  function TrimSlashes(p: string): string {
    if |p| > 0 && p[|p| - 1] == '/' then TrimSlashes(p[..|p| - 1]) else p
  }

  function AfterSlash(p: string): string {
    if |p| == 0 || p[|p| - 1] == '/' then "" else AfterSlash(p[..|p| - 1]) + [p[|p| - 1]]
  }

  /** The stored filename in a path this package produced, "" for anything else. */
  function Name(stored: string): string {
    if !(URL_PREFIX <= stored) then ""
    else
      var name := stored[|URL_PREFIX|..];
      if name == "" || name != Base(name) || name[0] == '.' then "" else name
  }

  lemma {:induction false} AfterSlashOf(p: string)
    ensures |AfterSlash(p)| <= |p| && '/' !in AfterSlash(p)
    ensures AfterSlash(p) == p <==> '/' !in p
  {
    if |p| > 0 && p[|p| - 1] != '/' {
      AfterSlashOf(p[..|p| - 1]);
      assert p == p[..|p| - 1] + [p[|p| - 1]];
    }
  }

  lemma {:induction false} TrimSlashesOf(p: string)
    ensures |TrimSlashes(p)| <= |p| && (|p| > 0 && p[|p| - 1] == '/' ==> |TrimSlashes(p)| < |p|)
    ensures '/' !in p ==> TrimSlashes(p) == p
    ensures |TrimSlashes(p)| == 0 && |p| > 0 ==> p[0] == '/'
  {
    if |p| > 0 && p[|p| - 1] == '/' {
      TrimSlashesOf(p[..|p| - 1]);
    }
  }

  /** A name that comes out is one element of a path, as it was stored: no slash, and no
      dot in front. One path gets past that, a lone slash for a name. */
  lemma {:induction false} NameIsOneElement(stored: string)
    ensures Name(stored) != "" ==> stored == URL_PREFIX + Name(stored) && Name(stored)[0] != '.'
    ensures Name(stored) != "" && '/' in Name(stored) <==> stored == URL_PREFIX + "/"
  {
    var prefix := URL_PREFIX;
    if prefix <= stored {
      var name := stored[|prefix|..];
      assert stored == prefix + name;
      if name != "" {
        TrimSlashesOf(name);
        AfterSlashOf(TrimSlashes(name));
        if Name(stored) != "" && '/' in name {
          LoneSlash(name);
        }
      }
    }
    if stored == prefix + "/" {
      assert stored[|prefix|..] == "/" && "/"[..0] == "" && TrimSlashes("/") == TrimSlashes("");
    }
  }

  /** And every plain element is let through as it is. */
  lemma {:induction false} EveryPlainElementIsAName(name: string)
    requires name != "" && name[0] != '.' && '/' !in name
    ensures Name(URL_PREFIX + name) == name
  {
    var stored := URL_PREFIX + name;
    assert stored[|URL_PREFIX|..] == name;
    TrimSlashesOf(name);
    AfterSlashOf(name);
  }

  lemma {:induction false} LoneSlash(name: string)
    requires name != "" && name == Base(name) && '/' in name
    ensures name == "/"
  {
    AfterSlashOf(TrimSlashes(name));
  }

  // ---------------------------------------------------------------- widths

  function Below(rungs: seq<int>, limit: int): seq<int> {
    if |rungs| == 0 then []
    else Below(rungs[..|rungs| - 1], limit) + if rungs[|rungs| - 1] < limit then [rungs[|rungs| - 1]] else []
  }

  /** Every standard rung well below the width, and the width itself. */
  function WidthsOf(canonical: nat): seq<int> {
    Below(LADDER, TruncDiv(canonical * 9, 10)) + [canonical]
  }

  method Widths(canonical: nat) returns (out: seq<int>)
    ensures out == WidthsOf(canonical)
  {
    out := [];
    for i := 0 to |LADDER|
      invariant out == Below(LADDER[..i], TruncDiv(canonical * 9, 10))
    {
      assert LADDER[..i + 1][..i] == LADDER[..i];
      if LADDER[i] < TruncDiv(canonical * 9, 10) {
        out := out + [LADDER[i]];
      }
    }
    assert LADDER[..|LADDER|] == LADDER;
    out := out + [canonical];
  }

  predicate Rising(xs: seq<int>) {
    forall i, j :: 0 <= i < j < |xs| ==> xs[i] < xs[j]
  }

  lemma {:induction false} BelowRises(rungs: seq<int>, limit: int)
    requires Rising(rungs)
    ensures Rising(Below(rungs, limit))
    ensures forall x :: x in Below(rungs, limit) <==> x in rungs && x < limit
  {
    if |rungs| > 0 {
      var init, last := rungs[..|rungs| - 1], rungs[|rungs| - 1];
      BelowRises(init, limit);
      assert rungs == init + [last];
      var below := Below(init, limit);
      forall i | 0 <= i < |below| ensures below[i] < last {
        assert below[i] in below;
        assert below[i] in init;
        var k :| 0 <= k < |init| && init[k] == below[i];
        assert rungs[k] < rungs[|rungs| - 1];
      }
    }
  }

  /** The ladder of a width rises strictly, never past the width, and ends at it; each
      rung under it is a standard one, more than a tenth narrower. */
  lemma {:induction false} WidthsClimbToTheCanonical(canonical: nat)
    ensures var ws := WidthsOf(canonical);
      && Rising(ws) && |ws| > 0 && ws[|ws| - 1] == canonical
      && (forall i :: 0 <= i < |ws| ==> 0 <= ws[i] <= canonical)
      && forall w :: w in ws && w != canonical <==> w in [480, 960, 1600, 2400] && 10 * w + 10 <= 9 * canonical
  {
    var limit := TruncDiv(canonical * 9, 10);
    BelowRises(LADDER, limit);
    var below, ws := Below(LADDER, limit), WidthsOf(canonical);
    forall i | 0 <= i < |below| ensures 0 <= below[i] < canonical {
      assert below[i] in below;
      assert below[i] in LADDER;
    }
    assert LADDER == [480, 960, 1600, 2400];
    forall w ensures w in ws && w != canonical <==> w in LADDER && 10 * w + 10 <= 9 * canonical {
      assert w in ws <==> w in below || w == canonical;
    }
  }

  /** fit: only ever down, so the longest side is at most MAX_EDGE. */
  function Fit(width: nat, height: nat): (nat, nat) {
    var longest := if height > width then height else width;
    if longest <= MAX_EDGE then (width, height) else (width * MAX_EDGE / longest, height * MAX_EDGE / longest)
  }

  lemma {:induction false} FitIsNeverLarger(width: nat, height: nat)
    requires width > 0 && height > 0
    ensures var (w, h) := Fit(width, height);
      && w <= width && h <= height && w <= 2400 && h <= 2400
      && (width > 2400 || height > 2400 ==> w == 2400 || h == 2400)
      && (width <= 2400 && height <= 2400 ==> w == width && h == height)
      // each side is in proportion to within a pixel
      && (width > 2400 || height > 2400 ==>
           var longest := if height > width then height else width;
           && w * longest <= width * 2400 < w * longest + longest
           && h * longest <= height * 2400 < h * longest + longest)
      // a side rounds to nothing exactly when the other is over 2400 times it
      && (w == 0 <==> height > 2400 * width) && (h == 0 <==> width > 2400 * height)
  {
    var longest := if height > width then height else width;
    if longest > MAX_EDGE {
      ScaledSide(width, longest);
      ScaledSide(height, longest);
      InProportion(width * MAX_EDGE, longest);
      InProportion(height * MAX_EDGE, longest);
    }
  }

  lemma {:induction false} InProportion(a: nat, n: nat)
    requires n > 0
    ensures a / n * n <= a < a / n * n + n
  {
    var q, r := a / n, a % n;
    assert a == n * q + r && n * q == q * n;
  }

  lemma {:induction false} ScaledSide(side: nat, longest: nat)
    requires 0 < side <= longest && longest > MAX_EDGE
    ensures var s := side * MAX_EDGE / longest;
      && 0 <= s <= MAX_EDGE && s <= side && (s == 0 <==> side * MAX_EDGE < longest)
      && (side == longest ==> s == MAX_EDGE)
  {
    var s, r := side * MAX_EDGE / longest, side * MAX_EDGE % longest;
    assert side * MAX_EDGE == s * longest + r && 0 <= r < longest;
    if s > MAX_EDGE {
      MulMono(MAX_EDGE + 1, s, longest);
    }
    if s > side {
      MulMono(side + 1, s, longest);
      MulMono(MAX_EDGE + 1, longest, side + 1);
    }
    if s > 0 {
      MulMono(1, s, longest);
    }
    if side == longest && s < MAX_EDGE {
      MulMono(s, MAX_EDGE - 1, longest);
    }
  }

  lemma {:induction false} MulMono(a: int, b: int, n: int)
    requires a <= b && n >= 0
    ensures a * n <= b * n
  {
  }

  // ---------------------------------------------------------------- writing and naming

  /** Every name an upload of this width is stored under. */
  predicate Stored(files: set<string>, stem: string, width: nat) {
    forall w: nat :: w in WidthsOf(width) ==> Rung(stem, w, ".jpg") in files && Rung(stem, w, ".webp") in files
  }

  class Store {
    var files: set<string>

    constructor ()
      ensures files == {}
    {
      files := {};
    }

    /** write: a no-op when the name is there; the bytes at a name never change. */
    method Write(name: string, works: bool) returns (ok: bool)
      modifies this
      ensures ok == (name in old(files) || works)
      ensures files == if ok then old(files) + {name} else old(files)
    {
      if name in files {
        assert files + {name} == files;
        return true;
      }
      if !works {
        return false;
      }
      files := files + {name};
      return true;
    }

    /** Save, after the picture has been decoded, fitted and hashed. `disk` says, write
        by write, whether the disk takes it. A path comes back only when everything
        below it was written, and nothing is ever taken away. */
    method Save(stem: string, width: nat, disk: seq<bool>) returns (path: Option<string>)
      modifies this
      ensures old(files) <= files
      ensures forall f :: f in files && f !in old(files) ==> IsRungOf(f, stem, width)
      ensures path.Some? ==> path.value == URL_PREFIX + Rung(stem, width, ".jpg") && Stored(files, stem, width)
      ensures path.None? ==> false in disk
    {
      var ok := Write(Rung(stem, width, ".jpg"), Works(disk, 0));
      if !ok {
        return None;
      }
      var ws := Widths(width);
      WidthsClimbToTheCanonical(width);
      for i := 0 to |ws|
        invariant old(files) <= files && Rung(stem, width, ".jpg") in files
        invariant forall f :: f in files && f !in old(files) ==> IsRungOf(f, stem, width)
        invariant forall k :: 0 <= k < i ==> Rung(stem, ws[k], ".jpg") in files && Rung(stem, ws[k], ".webp") in files
      {
        var w := ws[i];
        if w != width {
          ok := Write(Rung(stem, w, ".jpg"), Works(disk, 2 * i + 1));
          if !ok {
            return None;
          }
        }
        ok := Write(Rung(stem, w, ".webp"), Works(disk, 2 * i + 2));
        if !ok {
          return None;
        }
      }
      return Some(URL_PREFIX + Rung(stem, width, ".jpg"));
    }
  }

  /** One of the names a photograph of this width goes under. */
  ghost predicate IsRungOf(name: string, stem: string, width: nat) {
    exists w: nat :: w in WidthsOf(width) && (name == Rung(stem, w, ".jpg") || name == Rung(stem, w, ".webp"))
  }

  predicate Works(disk: seq<bool>, i: nat) {
    i < |disk| ==> disk[i]
  }

  /** A srcset entry: where the file is and how wide it is. */
  datatype Entry = Entry(url: string, width: int)

  datatype Sizes = Sizes(jpeg: seq<Entry>, webp: seq<Entry>)

  function Srcset(stem: string, widths: seq<int>, ext: string): seq<Entry>
    requires forall i :: 0 <= i < |widths| ==> widths[i] >= 0
  {
    seq(|widths|, i requires 0 <= i < |widths| => Entry(URL_PREFIX + Rung(stem, widths[i], ext), widths[i]))
  }

  /** Sources: the ladder, from the stored path alone. */
  function Sources(stored: string): Sizes {
    var name := Name(stored);
    if name == "" then Sizes([], [])
    else
      match Split(name)
      case None => Sizes([], [])
      case Some((stem, width)) =>
        WidthsClimbToTheCanonical(width);
        var all := WidthsOf(width);
        Sizes(if |all| < 2 then [] else Srcset(stem, all, ".jpg"), Srcset(stem, all, ".webp"))
  }

  /** Hexadecimal, as the stem of a stored photograph always is. */
  predicate IsStem(stem: string) {
    |stem| > 0 && forall i :: 0 <= i < |stem| ==> IsDigit(stem[i]) || 'a' <= stem[i] <= 'f'
  }

  lemma {:induction false} NameOfRung(stem: string, width: nat, ext: string)
    requires IsStem(stem) && IsExt(ext)
    ensures Name(URL_PREFIX + Rung(stem, width, ext)) == Rung(stem, width, ext) != ""
  {
    var name := Rung(stem, width, ext);
    var stored := URL_PREFIX + name;
    assert stored[|URL_PREFIX|..] == name;
    ItoaReadsBack(width);
    assert '/' !in name by {
      assert name == stem + "-w" + Itoa(width) + ext;
    }
    assert name[0] == stem[0];
    TrimSlashesOf(name);
    AfterSlashOf(name);
  }

  predicate IsThere(files: set<string>, url: string) {
    exists name :: name in files && url == URL_PREFIX + name
  }

  predicate EveryFileIsThere(files: set<string>, entries: seq<Entry>) {
    forall i :: 0 <= i < |entries| ==> IsThere(files, entries[i].url)
  }

  /** Entry after entry, the file of a width with that width beside it. */
  predicate EntriesFor(entries: seq<Entry>, stem: string, width: nat, ext: string) {
    var ws := WidthsOf(width);
    && |entries| == |ws|
    && forall k :: 0 <= k < |ws| ==>
         entries[k].width == ws[k] >= 0 && entries[k].url == "/media/" + Rung(stem, ws[k], ext)
  }

  /** The page never names a file that is not there: for every photograph that was
      stored, every file in its ladder was written by the save that returned the path,
      and is there as long as nothing is taken away. The ladder offers both formats
      at every width that was written, unless there is only the one. */
  lemma {:induction false} SourcesNamesOnlyWhatWasWritten(files: set<string>, stem: string, width: nat)
    requires IsStem(stem) && width <= MAX_INT64 && Stored(files, stem, width)
    ensures var s := Sources(URL_PREFIX + Rung(stem, width, ".jpg"));
      && EveryFileIsThere(files, s.jpeg) && EveryFileIsThere(files, s.webp)
      && (width >= 1 ==>
           && |s.webp| == |WidthsOf(width)| && s.webp[|s.webp| - 1].width == width
           && |s.jpeg| == (if |s.webp| == 1 then 0 else |s.webp|)
           && EntriesFor(s.webp, stem, width, ".webp") && (|s.jpeg| > 0 ==> EntriesFor(s.jpeg, stem, width, ".jpg")))
  {
    hide Name, Split, Rung, WidthsOf, Stored, EveryFileIsThere, EntriesFor, Srcset;
    NameOfRung(stem, width, ".jpg");
    SplitInvertsRung(stem, width, ".jpg");
    WidthsClimbToTheCanonical(width);
    if width >= 1 {
      EntriesAreThere(files, stem, width, ".jpg");
      EntriesAreThere(files, stem, width, ".webp");
      SrcsetNamesEachWidth(stem, width, ".jpg");
      SrcsetNamesEachWidth(stem, width, ".webp");
    }
    NothingIsThere(files);
  }

  lemma {:induction false} NothingIsThere(files: set<string>)
    ensures EveryFileIsThere(files, [])
  {
  }

  lemma {:induction false} SrcsetNamesEachWidth(stem: string, width: nat, ext: string)
    requires forall i :: 0 <= i < |WidthsOf(width)| ==> WidthsOf(width)[i] >= 0
    ensures var entries := Srcset(stem, WidthsOf(width), ext);
      && |entries| == |WidthsOf(width)| && EntriesFor(entries, stem, width, ext)
      && (|entries| > 0 ==> entries[|entries| - 1].width == WidthsOf(width)[|entries| - 1])
  {
    hide WidthsOf, Rung;
  }

  lemma {:induction false} EntriesAreThere(files: set<string>, stem: string, width: nat, ext: string)
    requires Stored(files, stem, width) && (ext == ".jpg" || ext == ".webp")
    requires forall i :: 0 <= i < |WidthsOf(width)| ==> WidthsOf(width)[i] >= 0
    ensures EveryFileIsThere(files, Srcset(stem, WidthsOf(width), ext))
  {
    var ws := WidthsOf(width);
    var entries := Srcset(stem, ws, ext);
    forall i | 0 <= i < |entries| ensures IsThere(files, entries[i].url) {
      var w: nat := ws[i];
      assert w in ws;
      assert Rung(stem, w, ext) in files;
      assert entries[i].url == URL_PREFIX + Rung(stem, w, ext);
    }
  }
}
