/**
 * The guideline document: one A4 `Page` element holding a title, a rights line, four
 * level lines (each followed by its icon when the level has one), a free
 * description line and a contact line. Fonts, styles and the PDF byte
 * rendering are not modelled; the document is its ordered element list.
 */
module PdfDocument {
  import opened FormSchema

  /** A child of a text element: literal text, or a number rendered by the host. */
  datatype Child = Str(s: string) | Num(n: real)

  /** An element of the page, in layout order. */
  datatype Element =
    | Title(text: string)
    | Text(children: seq<Child>)
    | Image(src: string)

  datatype Page = Page(size: string, elements: seq<Element>)

  datatype Document = Document(pages: seq<Page>)

  const Heading: string := "利用ガイドライン"
  const LevelLabels: seq<string> := [
    "使用レベル1: レベル ",
    "使用レベル2: レベル ",
    "使用レベル3: レベル ",
    "使用レベル4: レベル "
  ]

  /** A level the icon table knows: one of 1, 2, 3, 4. */
  predicate IsIconLevel(level: real)
  {
    level == 1.0 || level == 2.0 || level == 3.0 || level == 4.0
  }

  /** The icon asset for level `k`, built from its decimal digit. */
  function IconPath(k: nat): string
    requires 1 <= k <= 4
  {
    "/icons/" + [('0' as int + k) as char] + ".png"
  }

  /**
   * `renderImage`: the icon path of a level, and `""` for any other number;
   * total, so an out-of-range level never fails.
   */
  function RenderImage(level: real): (path: string)
    ensures path == "" <==> !IsIconLevel(level)
    ensures forall k: nat :: 1 <= k <= 4 && level == k as real ==> path == IconPath(k)
  {
    if level == 1.0 then "/icons/1.png"
    else if level == 2.0 then "/icons/2.png"
    else if level == 3.0 then "/icons/3.png"
    else if level == 4.0 then "/icons/4.png"
    else ""
  }

  /** Distinct levels never share an icon path. */
  lemma RenderImageInjective(a: real, b: real)
    requires RenderImage(a) != "" && RenderImage(a) == RenderImage(b)
    ensures a == b
  {
  }

  /** The rights line: "あり" when rights are inherited, "なし" otherwise. */
  function RightsLine(inherited: bool): Element
  {
    Text([Str("権利継承: "), Str(if inherited then "あり" else "なし")])
  }

  /** The text line of level `i` (0-based) with value `level`. */
  function LevelLine(i: nat, level: real): Element
    requires i < 4
  {
    Text([Str(LevelLabels[i]), Num(level)])
  }

  /** A level line followed by the icon, when `renderImage` gives one (the `&&` guard). */
  function LevelBlock(i: nat, level: real): seq<Element>
    requires i < 4
  {
    [LevelLine(i, level)] + (if RenderImage(level) != "" then [Image(RenderImage(level))] else [])
  }

  function FreeLine(d: FormData): Element
  {
    Text([Str("自由記述: "), Str(d.freeDescription)])
  }

  function ContactLine(d: FormData): Element
  {
    Text([Str("連絡先: "), Str(d.contactInfo)])
  }

  /** The four levels of a record, in field order. */
  function Levels(d: FormData): (ls: seq<real>)
    ensures |ls| == 4
  {
    [d.usageLevel1, d.usageLevel2, d.usageLevel3, d.usageLevel4]
  }

  /** The title and the rights line, which open the page. */
  function Prelude(d: FormData): seq<Element>
  {
    [Title(Heading), RightsLine(d.inheritanceRights)]
  }

  /** The free description and contact lines, which close the page. */
  function Closing(d: FormData): seq<Element>
  {
    [FreeLine(d), ContactLine(d)]
  }

  /** The page's elements, in JSX order. */
  function Elements(d: FormData): seq<Element>
  {
    Prelude(d)
    + LevelBlock(0, d.usageLevel1)
    + LevelBlock(1, d.usageLevel2)
    + LevelBlock(2, d.usageLevel3)
    + LevelBlock(3, d.usageLevel4)
    + Closing(d)
  }

  /** `PDFDocument`: a document of one A4 `Page` element (the renderer may wrap it onto more sheets). */
  function Render(d: FormData): Document
  {
    Document([Page("A4", Elements(d))])
  }

  /** The non-image elements of a list, in order. */
  function TextsOf(es: seq<Element>): seq<Element>
  {
    if es == [] then []
    else (if es[0].Image? then [] else [es[0]]) + TextsOf(es[1..])
  }

  /** The image sources of a list, in order. */
  function ImagesOf(es: seq<Element>): (srcs: seq<string>)
  {
    if es == [] then []
    else (if es[0].Image? then [es[0].src] else []) + ImagesOf(es[1..])
  }

  lemma {:induction false} TextsOfAppend(a: seq<Element>, b: seq<Element>)
    ensures TextsOf(a + b) == TextsOf(a) + TextsOf(b)
  {
    if a == [] {
      assert a + b == b;
    } else {
      assert (a + b)[1..] == a[1..] + b;
      TextsOfAppend(a[1..], b);
    }
  }

  lemma {:induction false} ImagesOfAppend(a: seq<Element>, b: seq<Element>)
    ensures ImagesOf(a + b) == ImagesOf(a) + ImagesOf(b)
  {
    if a == [] {
      assert a + b == b;
    } else {
      assert (a + b)[1..] == a[1..] + b;
      ImagesOfAppend(a[1..], b);
    }
  }

  /** The icon a level contributes to the page: its path, or nothing. */
  function IconOf(level: real): (icons: seq<string>)
    ensures |icons| == if IsIconLevel(level) then 1 else 0
  {
    if RenderImage(level) != "" then [RenderImage(level)] else []
  }

  /** The number of levels that have an icon. */
  function IconLevelCount(levels: seq<real>): nat
  {
    if levels == [] then 0 else (if IsIconLevel(levels[0]) then 1 else 0) + IconLevelCount(levels[1..])
  }

  lemma TextsOfConcat(h: seq<Element>, b0: seq<Element>, b1: seq<Element>, b2: seq<Element>,
                      b3: seq<Element>, t: seq<Element>)
    ensures TextsOf(h + b0 + b1 + b2 + b3 + t)
         == TextsOf(h) + TextsOf(b0) + TextsOf(b1) + TextsOf(b2) + TextsOf(b3) + TextsOf(t)
  {
    TextsOfAppend(h + b0 + b1 + b2 + b3, t);
    TextsOfAppend(h + b0 + b1 + b2, b3);
    TextsOfAppend(h + b0 + b1, b2);
    TextsOfAppend(h + b0, b1);
    TextsOfAppend(h, b0);
  }

  lemma ImagesOfConcat(h: seq<Element>, b0: seq<Element>, b1: seq<Element>, b2: seq<Element>,
                       b3: seq<Element>, t: seq<Element>)
    ensures ImagesOf(h + b0 + b1 + b2 + b3 + t)
         == ImagesOf(h) + ImagesOf(b0) + ImagesOf(b1) + ImagesOf(b2) + ImagesOf(b3) + ImagesOf(t)
  {
    ImagesOfAppend(h + b0 + b1 + b2 + b3, t);
    ImagesOfAppend(h + b0 + b1 + b2, b3);
    ImagesOfAppend(h + b0 + b1, b2);
    ImagesOfAppend(h + b0, b1);
    ImagesOfAppend(h, b0);
  }

  /** A two-element list of text elements filters to itself and has no images. */
  lemma TextPair(x: Element, y: Element)
    requires !x.Image? && !y.Image?
    ensures TextsOf([x, y]) == [x, y] && ImagesOf([x, y]) == []
  {
    assert [x, y][1..] == [y];
    assert [y][1..] == [];
    assert TextsOf([y]) == [y] + TextsOf([]);
    assert ImagesOf([y]) == [] + ImagesOf([]);
  }

  lemma LevelBlockParts(i: nat, level: real)
    requires i < 4
    ensures TextsOf(LevelBlock(i, level)) == [LevelLine(i, level)]
    ensures ImagesOf(LevelBlock(i, level)) == IconOf(level)
  {
    var img := if RenderImage(level) != "" then [Image(RenderImage(level))] else [];
    TextsOfAppend([LevelLine(i, level)], img);
    ImagesOfAppend([LevelLine(i, level)], img);
  }

  /** The text skeleton of any page laid out as prelude, four level blocks and closing. */
  lemma TextsOfLayout(h: seq<Element>, b0: seq<Element>, b1: seq<Element>, b2: seq<Element>,
                      b3: seq<Element>, t: seq<Element>, l0: Element, l1: Element, l2: Element, l3: Element)
    requires TextsOf(h) == h && TextsOf(t) == t
    requires TextsOf(b0) == [l0] && TextsOf(b1) == [l1] && TextsOf(b2) == [l2] && TextsOf(b3) == [l3]
    ensures TextsOf(h + b0 + b1 + b2 + b3 + t) == h + [l0, l1, l2, l3] + t
  {
    TextsOfConcat(h, b0, b1, b2, b3, t);
  }

  /**
   * Whatever the images, the text elements are always the same eight lines in
   * the same order: title, rights, levels 1 to 4, free description, contact.
   */
  lemma TextOrderIsFixed(d: FormData)
    ensures TextsOf(Elements(d)) == [Title(Heading), RightsLine(d.inheritanceRights),
                                     LevelLine(0, d.usageLevel1), LevelLine(1, d.usageLevel2),
                                     LevelLine(2, d.usageLevel3), LevelLine(3, d.usageLevel4),
                                     FreeLine(d), ContactLine(d)]
  {
    LevelBlockParts(0, d.usageLevel1);
    LevelBlockParts(1, d.usageLevel2);
    LevelBlockParts(2, d.usageLevel3);
    LevelBlockParts(3, d.usageLevel4);
    TextPair(Title(Heading), RightsLine(d.inheritanceRights));
    TextPair(FreeLine(d), ContactLine(d));
    TextsOfLayout(Prelude(d), LevelBlock(0, d.usageLevel1), LevelBlock(1, d.usageLevel2),
                  LevelBlock(2, d.usageLevel3), LevelBlock(3, d.usageLevel4), Closing(d),
                  LevelLine(0, d.usageLevel1), LevelLine(1, d.usageLevel2),
                  LevelLine(2, d.usageLevel3), LevelLine(3, d.usageLevel4));
  }

  /** The images of any page laid out as prelude, four level blocks and closing. */
  lemma ImagesOfLayout(h: seq<Element>, b0: seq<Element>, b1: seq<Element>, b2: seq<Element>,
                       b3: seq<Element>, t: seq<Element>)
    requires ImagesOf(h) == [] && ImagesOf(t) == []
    ensures ImagesOf(h + b0 + b1 + b2 + b3 + t) == ImagesOf(b0) + ImagesOf(b1) + ImagesOf(b2) + ImagesOf(b3)
  {
    ImagesOfConcat(h, b0, b1, b2, b3, t);
  }

  /** The images are exactly the icons of the levels that have one, in level order. */
  lemma ImagesAreLevelIcons(d: FormData)
    ensures ImagesOf(Elements(d))
         == IconOf(d.usageLevel1) + IconOf(d.usageLevel2) + IconOf(d.usageLevel3) + IconOf(d.usageLevel4)
  {
    LevelBlockParts(0, d.usageLevel1);
    LevelBlockParts(1, d.usageLevel2);
    LevelBlockParts(2, d.usageLevel3);
    LevelBlockParts(3, d.usageLevel4);
    TextPair(Title(Heading), RightsLine(d.inheritanceRights));
    TextPair(FreeLine(d), ContactLine(d));
    ImagesOfLayout(Prelude(d), LevelBlock(0, d.usageLevel1), LevelBlock(1, d.usageLevel2),
                   LevelBlock(2, d.usageLevel3), LevelBlock(3, d.usageLevel4), Closing(d));
  }

  /** A level block: its line, then its icon exactly when the level has one. */
  lemma LevelBlockShape(i: nat, level: real)
    requires i < 4
    ensures |LevelBlock(i, level)| == if RenderImage(level) != "" then 2 else 1
    ensures LevelBlock(i, level)[0] == LevelLine(i, level)
    ensures |LevelBlock(i, level)| == 2 ==> LevelBlock(i, level)[1] == Image(RenderImage(level))
  {
  }

  /** In `pre + b + post`, the element after `b[0]` is `b[1]`, or `post[0]` when `b` has one element. */
  lemma NextAfterLine(pre: seq<Element>, b: seq<Element>, post: seq<Element>)
    requires 1 <= |b| <= 2 && |post| >= 1
    ensures |pre| + 1 < |pre + b + post|
    ensures (pre + b + post)[|pre|] == b[0]
    ensures (pre + b + post)[|pre| + 1] == if |b| == 2 then b[1] else post[0]
  {
  }

  /** A block as a level block looks: a text line, then at most one image. */
  predicate BlockShaped(b: seq<Element>)
  {
    1 <= |b| <= 2 && !b[0].Image? && (|b| == 2 ==> b[1].Image?)
  }

  /**
   * In a prelude, four blocks and a closing, the first line of block `i` is
   * followed by the block's image when it has one, and otherwise by the first
   * element of what comes next.
   */
  lemma BlockLineAt(h: seq<Element>, b0: seq<Element>, b1: seq<Element>, b2: seq<Element>,
                    b3: seq<Element>, t: seq<Element>, i: nat)
    requires i < 4
    requires BlockShaped(b0) && BlockShaped(b1) && BlockShaped(b2) && BlockShaped(b3)
    requires |t| >= 1
    ensures var es, bs := h + b0 + b1 + b2 + b3 + t, [b0, b1, b2, b3];
            var p := |h| + (if i > 0 then |b0| else 0) + (if i > 1 then |b1| else 0) + (if i > 2 then |b2| else 0);
            && p + 1 < |es|
            && es[p] == bs[i][0]
            && es[p + 1] == if |bs[i]| == 2 then bs[i][1] else if i == 3 then t[0] else bs[i + 1][0]
  {
    if i == 0 {
      NextAfterLine(h, b0, b1 + b2 + b3 + t);
    } else if i == 1 {
      NextAfterLine(h + b0, b1, b2 + b3 + t);
    } else if i == 2 {
      NextAfterLine(h + b0 + b1, b2, b3 + t);
    } else {
      NextAfterLine(h + b0 + b1 + b2, b3, t);
    }
  }

  /** Position of the line of level `i` (0-based): after the prelude and the earlier blocks. */
  function LevelLinePos(d: FormData, i: nat): nat
    requires i < 4
  {
    |Prelude(d)|
    + (if i > 0 then |LevelBlock(0, d.usageLevel1)| else 0)
    + (if i > 1 then |LevelBlock(1, d.usageLevel2)| else 0)
    + (if i > 2 then |LevelBlock(2, d.usageLevel3)| else 0)
  }

  /**
   * `line` sits at position `p` of `es`, and the element right after it is the
   * image of `icon` when `icon` is not empty, and `next` otherwise.
   */
  predicate LineThenIcon(es: seq<Element>, p: nat, line: Element, icon: string, next: Element)
  {
    p + 1 < |es| && es[p] == line && es[p + 1] == if icon != "" then Image(icon) else next
  }

  /**
   * Each level line is followed by an image exactly when `renderImage` gives
   * its level a path, the image showing that path; otherwise the next text
   * line (the following level, or the free description) comes right after it.
   */
  lemma ImageFollowsLevelLine(d: FormData)
    ensures LineThenIcon(Elements(d), LevelLinePos(d, 0), LevelLine(0, d.usageLevel1),
                         RenderImage(d.usageLevel1), LevelLine(1, d.usageLevel2))
    ensures LineThenIcon(Elements(d), LevelLinePos(d, 1), LevelLine(1, d.usageLevel2),
                         RenderImage(d.usageLevel2), LevelLine(2, d.usageLevel3))
    ensures LineThenIcon(Elements(d), LevelLinePos(d, 2), LevelLine(2, d.usageLevel3),
                         RenderImage(d.usageLevel3), LevelLine(3, d.usageLevel4))
    ensures LineThenIcon(Elements(d), LevelLinePos(d, 3), LevelLine(3, d.usageLevel4),
                         RenderImage(d.usageLevel4), FreeLine(d))
  {
    var b0, b1, b2, b3 := LevelBlock(0, d.usageLevel1), LevelBlock(1, d.usageLevel2),
                          LevelBlock(2, d.usageLevel3), LevelBlock(3, d.usageLevel4);
    var h, t := Prelude(d), Closing(d);
    LevelBlockShape(0, d.usageLevel1);
    LevelBlockShape(1, d.usageLevel2);
    LevelBlockShape(2, d.usageLevel3);
    LevelBlockShape(3, d.usageLevel4);
    BlockLineAt(h, b0, b1, b2, b3, t, 0);
    BlockLineAt(h, b0, b1, b2, b3, t, 1);
    BlockLineAt(h, b0, b1, b2, b3, t, 2);
    BlockLineAt(h, b0, b1, b2, b3, t, 3);
  }

  /** Counting the icon levels of a record one level at a time. */
  lemma IconLevelCountSum(d: FormData)
    ensures IconLevelCount(Levels(d)) == |IconOf(d.usageLevel1)| + |IconOf(d.usageLevel2)|
                                         + |IconOf(d.usageLevel3)| + |IconOf(d.usageLevel4)|
  {
    var ls := Levels(d);
    assert ls[1..] == [d.usageLevel2, d.usageLevel3, d.usageLevel4];
    assert ls[1..][1..] == [d.usageLevel3, d.usageLevel4];
    assert ls[1..][1..][1..] == [d.usageLevel4];
    assert ls[1..][1..][1..][1..] == [];
    assert IconLevelCount(ls) == |IconOf(ls[0])| + IconLevelCount(ls[1..]);
    assert IconLevelCount(ls[1..]) == |IconOf(ls[1])| + IconLevelCount(ls[1..][1..]);
    assert IconLevelCount(ls[1..][1..]) == |IconOf(ls[2])| + IconLevelCount(ls[1..][1..][1..]);
    assert IconLevelCount(ls[1..][1..][1..]) == |IconOf(ls[3])|;
  }

  /**
   * The document is one A4 `Page` element with eight text elements, and one image per
   * level that has an icon; a record with integral levels in range has four.
   */
  lemma PageShape(d: FormData)
    ensures |Render(d).pages| == 1 && Render(d).pages[0].size == "A4"
    ensures |TextsOf(Render(d).pages[0].elements)| == 8
    ensures |ImagesOf(Render(d).pages[0].elements)| == IconLevelCount(Levels(d))
    ensures (forall l :: l in Levels(d) ==> IsIconLevel(l)) ==> |ImagesOf(Render(d).pages[0].elements)| == 4
  {
    TextOrderIsFixed(d);
    ImagesAreLevelIcons(d);
    IconLevelCountSum(d);
  }
}
