/**
 * The values the editor works with: decoded images, the flip side, the eye
 * styles, the fixed asset tables of main.js and the asset paths built from
 * them.
 */
module Assets {

  datatype Option<+T> = None | Some(value: T)

  /** A positive pixel dimension. */
  type Pos = x: int | x > 0 witness 1

  /** A decoded image that finished loading, by its natural size. */
  datatype Raster = Raster(width: Pos, height: Pos)

  /** An image file the editor asks `loadImage` for, by the parts its path
      is built from (see `Path`). */
  datatype Asset =
    | NumberedEye(side: Side, number: nat)   // a numbered file of the first eye style
    | ListedEye(style: EyeStyle, index: nat) // an entry of `eyeFiles`
    | TemplateFile(file: string)             // a template overlay or mask
    | FlagFile(side: Side, file: string)     // a flag of one side

  /** The images that load.  Each asset whose file loads maps to its decoded
      image; an asset that is missing, or whose load fails, is absent.
      `PathInjective` shows that distinct assets are distinct files, so a
      store keyed by asset is a store keyed by path. */
  type Store = map<Asset, Raster>

  /** `loadImage(path)`: the decoded image of the asset, or `None` when
      it fails; a failed load never yields an image. */
  function Load(assets: Store, a: Asset): (r: Option<Raster>)
    ensures r.None? <==> a !in assets
    ensures r.Some? ==> r.value == assets[a]
  {
    if a in assets then Some(assets[a]) else None
  }

  /** The single flip state shared by the eyes and the flags. */
  datatype Side = Left | Right

  function SideName(side: Side): string
  {
    match side
    case Left => "left"
    case Right => "right"
  }

  /** The side a flip turns to: the other one. */
  function Opposite(side: Side): (r: Side)
    ensures r != side
  {
    match side
    case Left => Right
    case Right => Left
  }

  /** The eye styles offered by the style selector, the keys of `eyeSets`. */
  datatype EyeStyle = S1 | S2 | S3

  function StyleName(style: EyeStyle): string
  {
    match style
    case S1 => "eyes.s1"
    case S2 => "eyes.s2"
    case S3 => "eyes.s3"
  }

  /** A template overlay and the cutout mask that goes with it. */
  datatype Template = Template(base: string, mask: string)

  const Templates: seq<Template> := [
    Template("circle_template.png", "cutout.png"),
    Template("oval_template.png", "oval_template.cutout.png"),
    Template("template3.png", "cutout.png"),
    Template("template4.png", "cutout.png")
  ]

  /** `eyeFiles`: the file lists of the two styles that are not numbered. */
  function EyeFiles(style: EyeStyle): seq<string>
  {
    match style
    case S1 => []
    case S2 => ["21.png", "23.png", "24.png", "22.png", "25.png", "26.png", "27.png",
                "28.png", "29.png", "210.png", "211.png", "212.png", "213.png"]
    case S3 => ["20250417_095053.png", "20250417_095241.png", "20250417_095250.png",
                "20250417_095738.png", "20250417_100100.png", "20250417_100119.png",
                "20250417_100159.png", "20250417_100226.png", "20250417_100246.png",
                "20250417_100328.png",
                "countryballs_girl_eyes_scared__by_nightprid_dg7xly8-pre.png"]
  }

  /** `eyeSets`: how many eye thumbnails each style offers. */
  function EyeCount(style: EyeStyle): (n: nat)
    ensures n > 0
  {
    match style
    case S1 => 11
    case S2 => 13
    case S3 => 11
  }

  /** The counts of the styles with file lists are the lengths of those
      lists, so every thumbnail index names a file. */
  lemma EyeCountListed(style: EyeStyle)
    requires style != S1
    ensures EyeCount(style) == |EyeFiles(style)|
  {
  }

  /** No style lists the same file twice. */
  lemma EyeFilesDistinct(style: EyeStyle, i: nat, j: nat)
    requires i < j < |EyeFiles(style)|
    ensures EyeFiles(style)[i] != EyeFiles(style)[j]
  {
  }

  // ---------------------------------------------------------------------
  // Decimal numerals, as a template literal prints a number
  // ---------------------------------------------------------------------

  predicate IsDigit(c: char)
  {
    ('0' as int) <= (c as int) <= ('9' as int)
  }

  function DigitChar(d: nat): (c: char)
    requires d < 10
    ensures IsDigit(c) && DigitValue(c) == d
  {
    (('0' as int) + d) as char
  }

  /** `${n}` for a natural number. */
  function NatToString(n: nat): (s: string)
    ensures |s| > 0
    ensures forall i :: 0 <= i < |s| ==> IsDigit(s[i])
  {
    if n < 10 then [DigitChar(n)] else NatToString(n / 10) + [DigitChar(n % 10)]
  }

  /** The value of a string of decimal digits. */
  function ParseDecimal(s: string): nat
    requires forall i :: 0 <= i < |s| ==> IsDigit(s[i])
  {
    if s == [] then 0
    else ParseDecimal(s[..|s| - 1]) * 10 + DigitValue(s[|s| - 1])
  }

  function DigitValue(c: char): nat
    requires IsDigit(c)
  {
    (c as int) - ('0' as int)
  }

  /** Printing a number loses nothing: the numeral reads back as the number. */
  lemma {:induction false} ParsePrinted(n: nat)
    ensures ParseDecimal(NatToString(n)) == n
  {
    if n >= 10 {
      var s := NatToString(n);
      assert s[..|s| - 1] == NatToString(n / 10);
      ParsePrinted(n / 10);
    }
  }

  lemma NatToStringInjective(a: nat, b: nat)
    requires NatToString(a) == NatToString(b)
    ensures a == b
  {
    ParsePrinted(a);
    ParsePrinted(b);
  }

  // ---------------------------------------------------------------------
  // Asset paths
  // ---------------------------------------------------------------------

  /** The folder, and the file-name stem, of the numbered eyes of a side. */
  function EyeFolder(side: Side): string
  {
    match side
    case Left => "lefteyes"
    case Right => "righteyes"
  }

  /** The asset `loadEyes` asks for: the numbered file of the current side
      for the first style (numbered from one), the listed file otherwise. */
  function EyeAsset(style: EyeStyle, side: Side, index: nat): (a: Asset)
    ensures a.NumberedEye? <==> style == S1
    ensures a.NumberedEye? ==> a.side == side && a.number == index + 1
    ensures a.ListedEye? ==> a.style == style && a.index == index
    ensures index < EyeCount(style) ==> Named(a)
  {
    if style == S1 then NumberedEye(side, index + 1) else ListedEye(style, index)
  }

  /** The assets the editor can ask for: a listed eye names an entry of its
      style's list. */
  predicate Named(a: Asset)
  {
    a.ListedEye? ==> a.style != S1 && a.index < EyeCount(a.style)
  }

  /** The path handed to `loadImage` for an asset. */
  function Path(a: Asset): (p: string)
    requires Named(a)
    ensures |p| > 7 && p[..7] == "assets/"
  {
    match a
    case NumberedEye(side, number) =>
      "assets/eyes.s1/" + EyeFolder(side) + "/" + EyeFolder(side) + NatToString(number) + ".png"
    case ListedEye(style, index) =>
      EyeCountListed(style);
      "assets/" + StyleName(style) + "/" + EyeFiles(style)[index]
    case TemplateFile(file) => "assets/template/" + file
    case FlagFile(side, file) => "assets/flag/" + SideName(side) + "/" + file
  }

  /** Only the first style keeps separate eye files per side; for the other
      styles the flip side does not enter the path. */
  lemma EyePathSide(style: EyeStyle, index: nat)
    requires index < EyeCount(style)
    ensures (Path(EyeAsset(style, Left, index)) == Path(EyeAsset(style, Right, index))) <==> style != S1
  {
    if style == S1 {
      assert Path(EyeAsset(style, Left, index))[15] == 'l';
      assert Path(EyeAsset(style, Right, index))[15] == 'r';
    }
  }

  /** The characters that tell the kinds of path apart: the one after
      "assets/" (`e`yes, `t`emplate, `f`lag) and, for eyes, the style digit. */
  lemma PathKind(a: Asset)
    requires Named(a)
    ensures |Path(a)| > 13
    ensures Path(a)[7] == (if a.TemplateFile? then 't' else if a.FlagFile? then 'f' else 'e')
    ensures a.NumberedEye? ==> Path(a)[13] == '1'
    ensures a.ListedEye? ==> Path(a)[13] == (if a.style == S2 then '2' else '3')
  {
    match a
    case NumberedEye(side, number) => NumberedEyeKind(side, number);
    case ListedEye(style, index) => ListedEyeKind(style, index);
    case TemplateFile(file) =>
    case FlagFile(side, file) =>
  }

  lemma NumberedEyeKind(side: Side, number: nat)
    ensures |Path(NumberedEye(side, number))| > 13
    ensures Path(NumberedEye(side, number))[7] == 'e' && Path(NumberedEye(side, number))[13] == '1'
  {
    var pre := "assets/eyes.s1/";
    assert Path(NumberedEye(side, number)) == pre + (EyeFolder(side) + "/" + EyeFolder(side) + NatToString(number) + ".png");
  }

  lemma ListedEyeKind(style: EyeStyle, index: nat)
    requires Named(ListedEye(style, index))
    ensures |Path(ListedEye(style, index))| > 13
    ensures Path(ListedEye(style, index))[7] == 'e'
    ensures Path(ListedEye(style, index))[13] == (if style == S2 then '2' else '3')
  {
    EyeCountListed(style);
    var pre := "assets/" + StyleName(style) + "/";
    assert Path(ListedEye(style, index)) == pre + EyeFiles(style)[index];
  }

  lemma NumberedEyeInjective(s1: Side, n1: nat, s2: Side, n2: nat)
    requires Path(NumberedEye(s1, n1)) == Path(NumberedEye(s2, n2))
    ensures s1 == s2 && n1 == n2
  {
    assert Path(NumberedEye(s1, n1))[15] == if s1 == Left then 'l' else 'r';
    assert Path(NumberedEye(s2, n2))[15] == if s2 == Left then 'l' else 'r';
    var pre := "assets/eyes.s1/" + EyeFolder(s1) + "/" + EyeFolder(s1);
    var x, y := NatToString(n1), NatToString(n2);
    assert Path(NumberedEye(s1, n1)) == pre + x + ".png";
    assert Path(NumberedEye(s2, n2)) == pre + y + ".png";
    assert |x| == |y|;
    assert x == (pre + x + ".png")[|pre|..|pre| + |x|];
    assert y == (pre + y + ".png")[|pre|..|pre| + |y|];
    NatToStringInjective(n1, n2);
  }

  lemma ListedEyeInjective(style: EyeStyle, i: nat, j: nat)
    requires Named(ListedEye(style, i)) && Named(ListedEye(style, j))
    requires Path(ListedEye(style, i)) == Path(ListedEye(style, j))
    ensures i == j
  {
    EyeCountListed(style);
    var pre := "assets/" + StyleName(style) + "/";
    assert Path(ListedEye(style, i)) == pre + EyeFiles(style)[i];
    assert Path(ListedEye(style, j)) == pre + EyeFiles(style)[j];
    assert EyeFiles(style)[i] == Path(ListedEye(style, i))[|pre|..];
    if i < j {
      EyeFilesDistinct(style, i, j);
    } else if j < i {
      EyeFilesDistinct(style, j, i);
    }
  }

  lemma FlagFileInjective(s1: Side, f1: string, s2: Side, f2: string)
    requires Path(FlagFile(s1, f1)) == Path(FlagFile(s2, f2))
    ensures s1 == s2 && f1 == f2
  {
    var p := Path(FlagFile(s1, f1));
    assert p[12] == if s1 == Left then 'l' else 'r';
    assert Path(FlagFile(s2, f2))[12] == if s2 == Left then 'l' else 'r';
    var pre := "assets/flag/" + SideName(s1) + "/";
    assert p == pre + f1 && Path(FlagFile(s2, f2)) == pre + f2;
    assert f1 == p[|pre|..];
  }

  /** Distinct assets are distinct files: the path determines the asset. */
  lemma PathInjective(a: Asset, b: Asset)
    requires Named(a) && Named(b) && Path(a) == Path(b)
    ensures a == b
  {
    PathKind(a);
    PathKind(b);
    match a
    case NumberedEye(s1, n1) =>
      NumberedEyeInjective(s1, n1, b.side, b.number);
    case ListedEye(style, i) =>
      assert b.style == style;
      ListedEyeInjective(style, i, b.index);
    case TemplateFile(f) =>
      var p := Path(a);
      assert f == p[16..] && b.file == Path(b)[16..];
    case FlagFile(s1, f1) =>
      FlagFileInjective(s1, f1, b.side, b.file);
  }
}
