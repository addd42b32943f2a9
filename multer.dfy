/**
 * The upload rules of apps/server/src/middlewares/multer.middleware.ts:
 * the extension allow-list filter, the stored-name builder and the size
 * ceiling. Node's `path.extname` / `path.parse(..).name` are modelled on the
 * final path segment; `Date.now()` and `Math.round(Math.random() * 1e9)`
 * are parameters.
 */
module Multer {
  import opened Wrappers
  import opened Text

  /** `ALLOWED_FORMATS`. */
  const AllowedFormats: seq<string> := ["csv", "txt", "xlsx", "xml"]

  /** `limits.fileSize`: 10 MiB. */
  const MaxFileSize: nat := 10 * 1024 * 1024

  /** The directory the disk storage writes to. */
  const Destination: string := "public/"

  /** The message of the filter's rejection. */
  const RejectMessage: string :=
    "Invalid file type. Only " + Join(AllowedFormats, ", ") + " files are allowed."

  // ---------------------------------------------------------------------
  // Node's path rules (POSIX)

  /** How much of `p` is left once its trailing separators are removed. */
  function TrimmedLength(p: string): (n: nat)
    ensures n <= |p|
    ensures n == 0 || p[n - 1] != '/'
    ensures forall i :: n <= i < |p| ==> p[i] == '/'
  {
    if |p| > 0 && p[|p| - 1] == '/' then TrimmedLength(p[..|p| - 1]) else |p|
  }

  /** The path with its trailing separators removed. */
  function TrimTrailingSlashes(p: string): (r: string)
    ensures |r| <= |p| && r == p[..|r|]
    ensures r == [] || r[|r| - 1] != '/'
    ensures forall i :: |r| <= i < |p| ==> p[i] == '/'
  {
    p[..TrimmedLength(p)]
  }

  /** Where the text after the last separator starts: 0 when there is none. */
  function LastSlashEnd(p: string): (i: nat)
    ensures i <= |p|
    ensures '/' !in p[i..]
    ensures i > 0 ==> p[i - 1] == '/'
  {
    if p == [] then 0
    else if p[|p| - 1] == '/' then |p|
    else
      var i := LastSlashEnd(p[..|p| - 1]);
      assert p[i..] == p[..|p| - 1][i..] + [p[|p| - 1]];
      i
  }

  /** The text after the last separator (all of it when there is none). */
  function AfterLastSlash(p: string): (r: string)
    ensures '/' !in r
    ensures |r| <= |p| && r == p[|p| - |r|..]
    ensures |r| < |p| ==> p[|p| - |r| - 1] == '/'
  {
    p[LastSlashEnd(p)..]
  }

  /**
   * The last path component, the part `extname` and `parse` look at: once
   * the trailing separators (from index `TrimmedLength(p)` on) are dropped,
   * the run of non-separators that ends the rest.
   */
  function FinalSegment(p: string): (seg: string)
    ensures '/' !in seg
    ensures |seg| <= TrimmedLength(p) && p[TrimmedLength(p) - |seg|..TrimmedLength(p)] == seg
    ensures |seg| < TrimmedLength(p) ==> p[TrimmedLength(p) - |seg| - 1] == '/'
  {
    AfterLastSlash(TrimTrailingSlashes(p))
  }

  /** The index of the last '.' of `s`, if any. */
  function LastDot(s: string): (k: Option<nat>)
    ensures k.Some? ==> k.value < |s| && s[k.value] == '.' && '.' !in s[k.value + 1..]
    ensures k.None? ==> '.' !in s
  {
    if s == [] then None
    else if s[|s| - 1] == '.' then Some(|s| - 1)
    else LastDot(s[..|s| - 1])
  }

  /** `s` has a '.' somewhere after its first character. */
  predicate DotAfterStart(s: string) {
    exists k :: 0 < k < |s| && s[k] == '.'
  }

  /** The last '.' of `s` is past its first character exactly when some '.' is. */
  lemma LastDotCovers(s: string)
    ensures DotAfterStart(s) <==> LastDot(s).Some? && LastDot(s).value > 0
  {
    match LastDot(s)
    case None =>
    case Some(k) =>
      if k > 0 {
        assert s[k] == '.';
      }
  }

  /**
   * The extension of one segment: from its last '.' to its end, except that a
   * segment without '.', one whose only leading character is its last '.'
   * (".bashrc") and the segment ".." have none.
   */
  function SegmentExtension(seg: string): (e: string)
    ensures e == "" || (e[0] == '.' && '.' !in e[1..])
    ensures |e| <= |seg| && seg[|seg| - |e|..] == e
    ensures e != "" <==> seg != ".." && DotAfterStart(seg)
  {
    LastDotCovers(seg);
    match LastDot(seg)
    case None => ""
    case Some(k) => if k == 0 || seg == ".." then "" else seg[k..]
  }

  /**
   * `path.extname(p)`: a '.'-led suffix of the final segment, present exactly
   * when that segment is not ".." and has a '.' after its first character.
   */
  function Extname(p: string): (e: string)
    ensures e == "" || (e[0] == '.' && '.' !in e[1..])
    ensures e != "" <==> FinalSegment(p) != ".." && DotAfterStart(FinalSegment(p))
  {
    SegmentExtension(FinalSegment(p))
  }

  /** `path.parse(p).name`: the final segment without its extension. */
  function ParsedName(p: string): (stem: string)
    ensures stem + Extname(p) == FinalSegment(p)
    ensures '/' !in stem
  {
    var seg := FinalSegment(p);
    StemAndSuffix(seg, SegmentExtension(seg));
    seg[..|seg| - |SegmentExtension(seg)|]
  }

  lemma StemAndSuffix(seg: string, e: string)
    requires |e| <= |seg| && seg[|seg| - |e|..] == e && '/' !in seg
    ensures seg[..|seg| - |e|] + e == seg && '/' !in seg[..|seg| - |e|] && '/' !in e
  {
    var n := |seg| - |e|;
    assert seg[..n] + seg[n..] == seg;
    forall i | 0 <= i < n ensures seg[..n][i] != '/' {
      assert seg[..n][i] == seg[i];
    }
    forall i | 0 <= i < |e| ensures e[i] != '/' {
      assert e[i] == seg[n + i];
    }
  }

  /** A name in a directory has the name's own segment, extension and stem. */
  lemma DirectoryIgnored(dir: string, name: string)
    requires name != [] && '/' !in name
    ensures FinalSegment(dir + "/" + name) == name
    ensures Extname(dir + "/" + name) == Extname(name) && ParsedName(dir + "/" + name) == ParsedName(name)
  {
    var p := dir + "/" + name;
    assert p[|p| - 1] == name[|name| - 1];
    assert TrimTrailingSlashes(p) == p;
    var i := LastSlashEnd(p);
    assert p[|dir|] == '/';
    assert i == |dir| + 1;
    assert p[i..] == name;
    FinalSegmentWithoutSlash(name);
  }

  /** Trailing separators do not change the segment, extension or stem. */
  lemma TrailingSlashIgnored(p: string)
    ensures FinalSegment(p + "/") == FinalSegment(p)
    ensures Extname(p + "/") == Extname(p) && ParsedName(p + "/") == ParsedName(p)
  {
    TrimTrailingSlashIgnored(p);
  }

  /** A dotted stem keeps its dots: only the text after the last '.' is the extension. */
  lemma DottedStemName()
    ensures Extname("FRA.2024.05.csv") == ".csv" && ParsedName("FRA.2024.05.csv") == "FRA.2024.05"
    ensures FileFilter("FRA.2024.05.csv").Accept?
  {
    assert "FRA.2024.05.csv" == "FRA.2024.05" + ".csv";
    PlainName("FRA.2024.05", ".csv");
    CsvAccepted("FRA.2024.05.csv");
  }

  /** A directory in the name is ignored. */
  lemma DirectoryName()
    ensures Extname("dir/readings.csv") == ".csv" && ParsedName("dir/readings.csv") == "readings"
    ensures FileFilter("dir/readings.csv").Accept?
  {
    assert "readings.csv" == "readings" + ".csv" && "dir/readings.csv" == "dir" + "/" + "readings.csv";
    PlainName("readings", ".csv");
    DirectoryIgnored("dir", "readings.csv");
    CsvAccepted("dir/readings.csv");
  }

  /** A trailing separator is ignored. */
  lemma TrailingSlashName()
    ensures Extname("readings.csv/") == ".csv" && ParsedName("readings.csv/") == "readings"
    ensures FileFilter("readings.csv/").Accept?
  {
    assert "readings.csv" == "readings" + ".csv" && "readings.csv/" == "readings.csv" + "/";
    PlainName("readings", ".csv");
    TrailingSlashIgnored("readings.csv");
    CsvAccepted("readings.csv/");
  }

  /** One more trailing separator leaves the trimmed path as it was. */
  lemma TrimTrailingSlashIgnored(p: string)
    ensures TrimTrailingSlashes(p + "/") == TrimTrailingSlashes(p)
  {
    assert (p + "/")[..|p|] == p;
  }

  // ---------------------------------------------------------------------
  // fileFilter

  /** The checked extension: lower-cased, without its dot; "" when there is none. */
  function CheckedExtension(originalname: string): (r: string)
    ensures Extname(originalname) == "" ==> r == ""
    ensures Extname(originalname) != "" ==> Lower(Extname(originalname)) == "." + r
    ensures '.' !in r
  {
    var x := Extname(originalname);
    LowerDottedShape(x);
    var e := Lower(x);
    if e == "" then "" else e[1..]
  }

  /** Lower-casing keeps the shape of an extension: '.' and no further '.'. */
  lemma LowerDottedShape(x: string)
    requires x == "" || (x[0] == '.' && '.' !in x[1..])
    ensures |Lower(x)| == |x|
    ensures x != "" ==> Lower(x) == "." + Lower(x)[1..] && '.' !in Lower(x)[1..]
  {
    if x != "" {
      var e := Lower(x);
      assert e == [e[0]] + e[1..];
      forall j | 0 <= j < |e| - 1 ensures e[1..][j] != '.' {
        assert e[1..][j] == LowerChar(x[j + 1]);
        assert x[j + 1] == x[1..][j];
      }
    }
  }

  datatype Verdict = Accept | Reject(message: string)

  /** `fileFilter`: accepts exactly the allowed extensions, whatever their case. */
  function FileFilter(originalname: string): (v: Verdict)
    ensures v.Accept? <==> CheckedExtension(originalname) in {"csv", "txt", "xlsx", "xml"}
    ensures v.Reject? ==> v.message == RejectMessage
  {
    var x := CheckedExtension(originalname);
    FormatsListed(x);
    if x in AllowedFormats then Accept else Reject(RejectMessage)
  }

  lemma FormatsListed(x: string)
    ensures x in AllowedFormats <==> x in {"csv", "txt", "xlsx", "xml"}
  {
  }

  /** The formats joined as the message lists them. */
  lemma FormatList()
    ensures Join(AllowedFormats, ", ") == "csv, txt, xlsx, xml"
  {
    var f := AllowedFormats;
    assert f[1..][1..][1..] == ["xml"];
    assert Join(f[1..][1..], ", ") == "xlsx" + ", " + "xml" == "xlsx, xml";
    assert Join(f[1..], ", ") == "txt" + ", " + "xlsx, xml" == "txt, xlsx, xml";
  }

  /** The rejection message names the four formats in order. */
  lemma RejectMessageText()
    ensures RejectMessage == "Invalid file type. Only " + "csv, txt, xlsx, xml" + " files are allowed."
  {
    FormatList();
  }

  /** A ".csv" extension, in this case, is accepted. */
  lemma CsvAccepted(originalname: string)
    requires Extname(originalname) == ".csv"
    ensures FileFilter(originalname).Accept?
  {
    LowerCsv();
    assert CheckedExtension(originalname) == ".csv"[1..];
  }

  lemma LowerCsv()
    ensures Lower(".csv") == ".csv"
  {
    var l := Lower(".csv");
    assert l[0] == '.' && l[1] == 'c' && l[2] == 's' && l[3] == 'v';
  }

  /** A name without an extension is always rejected. */
  lemma NoExtensionRejected(originalname: string)
    requires Extname(originalname) == ""
    ensures FileFilter(originalname) == Reject(RejectMessage)
  {
  }

  /** The verdict in terms of the extension as `extname` returns it. */
  lemma FilterByExtension(originalname: string)
    ensures FileFilter(originalname).Accept? <==>
      Lower(Extname(originalname)) in {".csv", ".txt", ".xlsx", ".xml"}
  {
    var x := Extname(originalname);
    assert x != "" ==> Lower(x)[0] == LowerChar(x[0]) == '.';
    DottedMembership(Lower(x));
  }

  /** Dropping the leading dot maps the dotted formats onto the formats. */
  lemma DottedMembership(e: string)
    requires e == "" || e[0] == '.'
    ensures (if e == "" then "" else e[1..]) in {"csv", "txt", "xlsx", "xml"}
      <==> e in {".csv", ".txt", ".xlsx", ".xml"}
  {
    if e != "" {
      var t := e[1..];
      assert e == "." + t;
      DottedWord(t, "csv", ".csv");
      DottedWord(t, "txt", ".txt");
      DottedWord(t, "xlsx", ".xlsx");
      DottedWord(t, "xml", ".xml");
    }
  }

  lemma DottedWord(t: string, w: string, dotted: string)
    requires dotted == "." + w
    ensures "." + t == dotted <==> t == w
  {
    if "." + t == dotted {
      assert t == ("." + t)[1..] == dotted[1..] == w;
    }
  }

  /** The verdict does not depend on letter case. */
  lemma {:induction false} FilterCaseInsensitive(originalname: string)
    ensures FileFilter(Lower(originalname)) == FileFilter(originalname)
  {
    LowerExtname(originalname);
    LowerIdempotent(Extname(originalname));
  }

  /** `extname` commutes with lower-casing, because '.' and '/' have no case. */
  lemma {:induction false} LowerExtname(p: string)
    ensures Extname(Lower(p)) == Lower(Extname(p))
  {
    LowerTrim(p);
    LowerAfterLastSlash(TrimTrailingSlashes(p));
    assert FinalSegment(Lower(p)) == Lower(FinalSegment(p));
    LowerSegmentExtension(FinalSegment(p));
  }

  lemma LowerSegmentExtension(seg: string)
    ensures SegmentExtension(Lower(seg)) == Lower(SegmentExtension(seg))
  {
    LowerLastDot(seg);
    var lseg := Lower(seg);
    assert lseg == ".." <==> seg == ".." by {
      if lseg == ".." { assert LowerChar(seg[0]) == '.' && LowerChar(seg[1]) == '.'; }
    }
    match LastDot(seg)
    case None =>
    case Some(k) =>
      assert lseg[k..] == Lower(seg[k..]);
  }

  lemma LowerTrim(p: string)
    ensures TrimTrailingSlashes(Lower(p)) == Lower(TrimTrailingSlashes(p))
  {
    LowerTrimmedLength(p);
    var n := TrimmedLength(p);
    assert Lower(p)[..n] == Lower(p[..n]);
  }

  lemma {:induction false} LowerTrimmedLength(p: string)
    ensures TrimmedLength(Lower(p)) == TrimmedLength(p)
  {
    if |p| > 0 {
      var q := p[..|p| - 1];
      LowerSnoc(p);
      assert Lower(p)[..|p| - 1] == Lower(q);
      LowerTrimmedLength(q);
    }
  }

  lemma LowerAfterLastSlash(p: string)
    ensures AfterLastSlash(Lower(p)) == Lower(AfterLastSlash(p))
  {
    LowerLastSlashEnd(p);
    var i := LastSlashEnd(p);
    assert Lower(p)[i..] == Lower(p[i..]);
  }

  lemma {:induction false} LowerLastSlashEnd(p: string)
    ensures LastSlashEnd(Lower(p)) == LastSlashEnd(p)
  {
    if |p| > 0 {
      var q := p[..|p| - 1];
      LowerSnoc(p);
      assert Lower(p)[..|p| - 1] == Lower(q);
      LowerLastSlashEnd(q);
    }
  }

  lemma {:induction false} LowerLastDot(s: string)
    ensures LastDot(Lower(s)) == LastDot(s)
  {
    if |s| > 0 {
      var q := s[..|s| - 1];
      LowerSnoc(s);
      assert Lower(s)[..|s| - 1] == Lower(q);
      assert Lower(s)[|s| - 1] == LowerChar(s[|s| - 1]);
      LowerLastDot(q);
    }
  }

  lemma LowerIdempotent(s: string)
    ensures Lower(Lower(s)) == Lower(s)
  {
  }

  // ---------------------------------------------------------------------
  // storage.filename

  function DigitChar(d: nat): (c: char)
    requires d < 10
    ensures '0' <= c <= '9'
  {
    ('0' as int + d) as char
  }

  /** The decimal text of a non-negative integer, as JavaScript prints it. */
  function Decimal(n: nat): (s: string)
    ensures |s| >= 1
    ensures forall i :: 0 <= i < |s| ==> '0' <= s[i] <= '9'
  {
    if n < 10 then [DigitChar(n)] else Decimal(n / 10) + [DigitChar(n % 10)]
  }

  /** Different numbers print differently. */
  lemma {:induction false} DecimalInjective(a: nat, b: nat)
    requires Decimal(a) == Decimal(b)
    ensures a == b
  {
    if a >= 10 && b >= 10 {
      var da, db := Decimal(a), Decimal(b);
      assert da[..|da| - 1] == Decimal(a / 10);
      assert db[..|db| - 1] == Decimal(b / 10);
      DecimalInjective(a / 10, b / 10);
      assert DigitChar(a % 10) == da[|da| - 1] == DigitChar(b % 10);
    }
  }

  /**
   * `uniqueSuffix`: `Date.now() + '-' + Math.round(Math.random() * 1e9)`;
   * it splits at its one dash into the two numbers and holds no '.' or '/'.
   */
  function UniqueSuffix(timestamp: nat, random: nat): (u: string)
    ensures Split(u, '-') == [Decimal(timestamp), Decimal(random)]
    ensures '.' !in u && '/' !in u
  {
    NoDashInDecimal(timestamp);
    NoDashInDecimal(random);
    SplitAtSeparator(Decimal(timestamp), '-', Decimal(random));
    SplitWithoutSeparator(Decimal(random), '-');
    Decimal(timestamp) + "-" + Decimal(random)
  }

  /**
   * `storage.filename`: `<stem>-<timestamp>-<random><extension>`, a single
   * path component, so the file lands directly in the destination directory.
   */
  function StoredName(originalname: string, timestamp: nat, random: nat): (name: string)
    ensures '/' !in name
  {
    var stem, u, e := ParsedName(originalname), UniqueSuffix(timestamp, random), Extname(originalname);
    StemAndSuffix(FinalSegment(originalname), e);
    NoSlashInJoined(stem, u, e);
    stem + "-" + u + e
  }

  /** The stored name starts with the original stem and a dash and ends with the original extension, its case kept. */
  lemma StoredNameShape(originalname: string, timestamp: nat, random: nat)
    ensures StartsWith(StoredName(originalname, timestamp, random), ParsedName(originalname) + "-")
    ensures EndsWith(StoredName(originalname, timestamp, random), Extname(originalname))
  {
    Affixes(ParsedName(originalname) + "-", UniqueSuffix(timestamp, random), Extname(originalname));
  }

  lemma NoDashInDecimal(n: nat)
    ensures '-' !in Decimal(n) && '.' !in Decimal(n) && '/' !in Decimal(n)
  {
    var d := Decimal(n);
    forall i | 0 <= i < |d| ensures d[i] != '-' && d[i] != '.' && d[i] != '/' {
    }
  }

  /** Distinct (timestamp, random) pairs always yield distinct suffixes. */
  lemma UniqueSuffixInjective(t1: nat, r1: nat, t2: nat, r2: nat)
    requires UniqueSuffix(t1, r1) == UniqueSuffix(t2, r2)
    ensures t1 == t2 && r1 == r2
  {
    assert Split(UniqueSuffix(t1, r1), '-')[0] == Decimal(t1);
    assert Split(UniqueSuffix(t2, r2), '-')[1] == Decimal(r2);
    DecimalInjective(t1, t2);
    DecimalInjective(r1, r2);
  }

  /** For one original name, distinct (timestamp, random) pairs always yield distinct stored names. */
  lemma StoredNameInjective(originalname: string, t1: nat, r1: nat, t2: nat, r2: nat)
    requires t1 != t2 || r1 != r2
    ensures StoredName(originalname, t1, r1) != StoredName(originalname, t2, r2)
  {
    var stem, e := ParsedName(originalname), Extname(originalname);
    var s1, s2 := StoredName(originalname, t1, r1), StoredName(originalname, t2, r2);
    var u1, u2 := UniqueSuffix(t1, r1), UniqueSuffix(t2, r2);
    if s1 == s2 {
      assert s1 == stem + "-" + u1 + e;
      assert s2 == stem + "-" + u2 + e;
      assert |u1| == |u2|;
      assert u1 == s1[|stem| + 1..|stem| + 1 + |u1|];
      assert u2 == s2[|stem| + 1..|stem| + 1 + |u2|];
      UniqueSuffixInjective(t1, r1, t2, r2);
    }
  }

  lemma AfterLastSlashWithoutSlash(p: string)
    requires '/' !in p
    ensures AfterLastSlash(p) == p
  {
  }

  lemma {:induction false} LastDotAppendNoDot(a: string, b: string)
    requires '.' !in b
    ensures LastDot(a + b) == LastDot(a)
  {
    if b != [] {
      assert (a + b)[..|a + b| - 1] == a + b[..|b| - 1];
      LastDotAppendNoDot(a, b[..|b| - 1]);
    } else {
      assert a + b == a;
    }
  }

  lemma {:induction false} LastDotAtExtension(a: string, e: string)
    requires e != [] && e[0] == '.' && '.' !in e[1..]
    ensures LastDot(a + e) == Some(|a|)
  {
    if |e| > 1 {
      assert e[|e| - 1] in e[1..];
      assert (a + e)[..|a + e| - 1] == a + e[..|e| - 1];
      assert e[..|e| - 1][1..] == e[1..|e| - 1];
      LastDotAtExtension(a, e[..|e| - 1]);
    }
  }

  /**
   * A `stem.ext` name without directory: the extension is what follows the
   * last '.', and the stem may hold dots of its own ("FRA.2024.05.csv").
   */
  lemma PlainName(stem: string, ext: string)
    requires stem != [] && '/' !in stem
    requires |ext| >= 1 && ext[0] == '.' && '.' !in ext[1..] && '/' !in ext
    requires stem + ext != ".."
    ensures Extname(stem + ext) == ext && ParsedName(stem + ext) == stem
  {
    var s := stem + ext;
    forall i | 0 <= i < |s| ensures s[i] != '/' {
      if i < |stem| { assert s[i] == stem[i]; } else { assert s[i] == ext[i - |stem|]; }
    }
    FinalSegmentWithoutSlash(s);
    LastDotAtExtension(stem, ext);
    assert SegmentExtension(s) == s[|stem|..] == ext;
    assert s[..|stem|] == stem;
  }

  /** A name without separators is its own final segment. */
  lemma FinalSegmentWithoutSlash(s: string)
    requires '/' !in s
    ensures FinalSegment(s) == s
  {
    assert TrimTrailingSlashes(s) == s;
    AfterLastSlashWithoutSlash(s);
  }

  /** On a name without separators `extname` looks at the whole name. */
  lemma ExtnameWithoutSlash(s: string)
    requires '/' !in s
    ensures Extname(s) == SegmentExtension(s)
  {
    FinalSegmentWithoutSlash(s);
  }

  /** Inserting '-' and a dot-free infix between stem and extension keeps the extension. */
  lemma InfixKeepsExtension(stem: string, u: string, e: string)
    requires stem + e != ".." && SegmentExtension(stem + e) == e
    requires '.' !in u
    requires e == "" || (e[0] == '.' && '.' !in e[1..])
    ensures SegmentExtension(stem + "-" + u + e) == e
  {
    var mid := "-" + u;
    assert '.' !in mid;
    var s := stem + "-" + u + e;
    assert s == (stem + mid) + e;
    assert s != ".." by { assert s[|stem|] == '-'; }
    if e == "" {
      assert s == stem + mid && stem + e == stem;
      LastDotAppendNoDot(stem, mid);
    } else {
      LastDotAtExtension(stem + mid, e);
    }
  }

  lemma NoSlashInJoined(stem: string, u: string, e: string)
    requires '/' !in stem && '/' !in u && '/' !in e
    ensures '/' !in stem + "-" + u + e
  {
    var s := stem + "-" + u + e;
    forall i | 0 <= i < |s| ensures s[i] != '/' {
      if i < |stem| { assert s[i] == stem[i]; }
      else if i == |stem| { assert s[i] == '-'; }
      else if i < |stem| + 1 + |u| { assert s[i] == u[i - |stem| - 1]; }
      else { assert s[i] == e[i - |stem| - 1 - |u|]; }
    }
  }

  /**
   * The stored name has the original extension, so the filter would judge it
   * alike; the one exception is the segment "..", which the filter rejects.
   */
  lemma StoredNameKeepsExtension(originalname: string, timestamp: nat, random: nat)
    requires FinalSegment(originalname) != ".."
    ensures Extname(StoredName(originalname, timestamp, random)) == Extname(originalname)
  {
    var stem, u, e := ParsedName(originalname), UniqueSuffix(timestamp, random), Extname(originalname);
    StemAndSuffix(FinalSegment(originalname), e);
    NoSlashInJoined(stem, u, e);
    ExtnameWithoutSlash(stem + "-" + u + e);
    InfixKeepsExtension(stem, u, e);
  }

  /** A name the filter accepts is stored under a name it would accept too. */
  lemma AcceptedStaysAccepted(originalname: string, timestamp: nat, random: nat)
    requires FileFilter(originalname).Accept?
    ensures FileFilter(StoredName(originalname, timestamp, random)).Accept?
  {
    assert Extname(originalname) != "";
    assert FinalSegment(originalname) != "..";
    StoredNameKeepsExtension(originalname, timestamp, random);
  }

  // ---------------------------------------------------------------------
  // limits.fileSize

  /** Multer keeps a file of at most `fileSize` bytes. */
  predicate WithinSizeLimit(size: nat) {
    size <= MaxFileSize
  }

  lemma SizeCeiling()
    ensures MaxFileSize == 10485760
    ensures WithinSizeLimit(10485760) && !WithinSizeLimit(10485761)
  {
  }
}
