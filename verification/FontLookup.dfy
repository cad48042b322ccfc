/**
 * A font's lookup tables: from a code point to a glyph and to an advance, and the map of the 4K
 * pages of code points in use. Looking a code point up must agree with searching the glyphs.
 */
module FontLookup {
  import opened CodePoints

  const NO_GLYPH := 0xFFFF
  const PAGE := 4096
  const PAGES := (CODEPOINT_MAX + 1) / PAGE
  const TAB := 9
  const SPACE := 32
  const TAB_SIZE := 4.0

  datatype Glyph = Glyph(codepoint: nat, advance: real, visible: bool)

  datatype Found = Nothing | GlyphAt(index: nat)

  function CodesOf(glyphs: seq<Glyph>): (r: seq<nat>)
    ensures |r| == |glyphs| && forall i | 0 <= i < |r| :: r[i] == glyphs[i].codepoint
  {
    seq(|glyphs|, i requires 0 <= i < |glyphs| => glyphs[i].codepoint)
  }

  /** The last glyph of a code point, by searching from the end. */
  function LastOf(codes: seq<nat>, c: nat): (r: Found)
    ensures r.GlyphAt? ==> r.index < |codes| && codes[r.index] == c
    ensures r.GlyphAt? ==> forall i | r.index < i < |codes| :: codes[i] != c
    ensures r.Nothing? ==> c !in codes
  {
    if |codes| == 0 then Nothing
    else if codes[|codes| - 1] == c then GlyphAt(|codes| - 1)
    else LastOf(codes[..|codes| - 1], c)
  }

  /** How a table entry stands for a search result. */
  function Entry(f: Found): nat {
    match f
    case Nothing => NO_GLYPH
    case GlyphAt(i) => i
  }

  /** The table answers every code point as the search would, and no glyph lies beyond it. */
  ghost predicate Answers(lookup: seq<nat>, codes: seq<nat>) {
    && |codes| <= NO_GLYPH
    && (forall c | 0 <= c < |lookup| :: lookup[c] == Entry(LastOf(codes, c)))
    && forall i | 0 <= i < |codes| :: codes[i] < |lookup|
  }

  lemma AnswersNothing(lookup: seq<nat>)
    requires forall c | 0 <= c < |lookup| :: lookup[c] == NO_GLYPH
    ensures Answers(lookup, [])
  {
  }

  /** One glyph more at the end takes its code point's entry over. */
  lemma AnswersPush(lookup: seq<nat>, codes: seq<nat>, c: nat)
    requires Answers(lookup, codes) && |codes| < NO_GLYPH && c < |lookup|
    ensures Answers(lookup[c := |codes|], codes + [c])
  {
    assert (codes + [c])[..|codes|] == codes;
  }

  // ---------------------------------------------------------------------------------------------
  // Pages
  // ---------------------------------------------------------------------------------------------

  /** One, shifted left k times. */
  function Mask(k: nat): bv8 {
    if k == 0 then 1 else Mask(k - 1) << 1
  }

  predicate Meets(w: bv8, m: bv8) {
    w & m != 0
  }

  function Join(w: bv8, m: bv8): bv8 {
    w | m
  }

  lemma Masks()
    ensures Mask(0) == 1 && Mask(1) == 2 && Mask(2) == 4 && Mask(3) == 8
    ensures Mask(4) == 16 && Mask(5) == 32 && Mask(6) == 64 && Mask(7) == 128
  {
    assert Mask(2) == 4 && Mask(4) == 16 && Mask(6) == 64;
  }

  lemma JoinMeets(w: bv8, m: bv8, n: bv8)
    requires m != 0 && (m == n || m & n == 0)
    ensures Meets(Join(w, m), n) <==> m == n || Meets(w, n)
  {
  }

  lemma MasksApart(j: nat, k: nat)
    requires j < 8 && k < 8
    ensures Mask(k) != 0 && (Mask(k) == Mask(j) <==> j == k) && (j != k ==> Mask(k) & Mask(j) == 0)
  {
    Masks();
  }

  /** The bit of a page in the map of two bytes. */
  predicate PageUsed(pages: seq<bv8>, page: nat)
    requires |pages| == PAGES / 8 && page < PAGES
  {
    Meets(pages[page / 8], Mask(page % 8))
  }

  lemma MarkSets(pages: seq<bv8>, page: nat, p: nat)
    requires |pages| == PAGES / 8 && page < PAGES && p < PAGES
    ensures PageUsed(pages[page / 8 := Join(pages[page / 8], Mask(page % 8))], p) <==> p == page || PageUsed(pages, p)
  {
    hide Mask, Meets, Join;
    if p / 8 == page / 8 {
      MasksApart(p % 8, page % 8);
      JoinMeets(pages[page / 8], Mask(page % 8), Mask(p % 8));
      assert p == 8 * (p / 8) + p % 8 && page == 8 * (page / 8) + page % 8;
    } else {
      assert p != page;
    }
  }

  lemma NoPages(pages: seq<bv8>, p: nat)
    requires |pages| == PAGES / 8 && (forall k | 0 <= k < |pages| :: pages[k] == 0) && p < PAGES
    ensures !PageUsed(pages, p)
  {
  }

  ghost predicate OnPage(codes: seq<nat>, p: nat) {
    exists i | 0 <= i < |codes| :: codes[i] / PAGE == p
  }

  /** A page is in use exactly when it holds one of the code points. */
  ghost predicate PagesOf(pages: seq<bv8>, codes: seq<nat>) {
    && |pages| == PAGES / 8
    && (forall i | 0 <= i < |codes| :: codes[i] <= CODEPOINT_MAX)
    && forall p | 0 <= p < PAGES :: PageUsed(pages, p) <==> OnPage(codes, p)
  }

  lemma PagesPush(pages: seq<bv8>, codes: seq<nat>, c: nat)
    requires PagesOf(pages, codes) && c <= CODEPOINT_MAX
    ensures
      var page := c / PAGE;
      page < PAGES && PagesOf(pages[page / 8 := Join(pages[page / 8], Mask(page % 8))], codes + [c])
  {
    hide PageUsed, Mask, Join;
    var page := c / PAGE;
    var pages' := pages[page / 8 := Join(pages[page / 8], Mask(page % 8))];
    var codes' := codes + [c];
    forall p | 0 <= p < PAGES ensures PageUsed(pages', p) <==> OnPage(codes', p) {
      MarkSets(pages, page, p);
      OnPagePush(codes, c, p);
    }
  }

  lemma OnPagePush(codes: seq<nat>, c: nat, p: nat)
    ensures OnPage(codes + [c], p) <==> p == c / PAGE || OnPage(codes, p)
  {
    var codes' := codes + [c];
    assert codes'[|codes|] == c;
    if i :| 0 <= i < |codes| && codes[i] / PAGE == p {
      assert codes'[i] / PAGE == p;
    }
  }

  /** Without marking its page, one more code point leaves the map fitting exactly when its page was in use. */
  lemma PagesPushIff(pages: seq<bv8>, codes: seq<nat>, c: nat)
    requires PagesOf(pages, codes) && c <= CODEPOINT_MAX
    ensures PagesOf(pages, codes + [c]) <==> OnPage(codes, c / PAGE)
  {
    hide PageUsed, OnPage;
    OnPagePush(codes, c, c / PAGE);
    forall p | 0 <= p < PAGES ensures OnPage(codes + [c], p) <==> p == c / PAGE || OnPage(codes, p) {
      OnPagePush(codes, c, p);
    }
  }

  // ---------------------------------------------------------------------------------------------
  // The font
  // ---------------------------------------------------------------------------------------------

  function Larger(a: nat, b: nat): nat {
    if a < b then b else a
  }

  /** The advance that the tables hold for a code point before missing ones are filled in. */
  function AdvanceOf(glyphs: seq<Glyph>, c: nat): real {
    match LastOf(CodesOf(glyphs), c)
    case Nothing => -1.0
    case GlyphAt(i) => glyphs[i].advance
  }

  ghost predicate Advances(adv: seq<real>, glyphs: seq<Glyph>) {
    forall c | 0 <= c < |adv| :: adv[c] == AdvanceOf(glyphs, c)
  }

  lemma CodesPush(glyphs: seq<Glyph>, g: Glyph)
    ensures CodesOf(glyphs + [g]) == CodesOf(glyphs) + [g.codepoint]
  {
  }

  lemma AdvancesPush(adv: seq<real>, glyphs: seq<Glyph>, g: Glyph)
    requires Advances(adv, glyphs) && g.codepoint < |adv|
    ensures Advances(adv[g.codepoint := g.advance], glyphs + [g])
  {
    CodesPush(glyphs, g);
    var codes := CodesOf(glyphs);
    assert (codes + [g.codepoint])[..|codes|] == codes;
  }

  /** The TAB glyph: the space glyph, four times as wide. */
  function TabFrom(space: Glyph): Glyph {
    space.(codepoint := TAB, advance := space.advance * TAB_SIZE)
  }

  /** What a lookup finds: the last glyph of the code point, or else the fallback, if there is one. */
  function Seen(glyphs: seq<Glyph>, c: nat, fallback: Found): (r: Found)
    requires fallback.GlyphAt? ==> fallback.index < |glyphs|
    ensures r.GlyphAt? ==> r.index < |glyphs|
  {
    var own := LastOf(CodesOf(glyphs), c);
    if own.GlyphAt? then own else fallback
  }

  /** The glyphs with a TAB glyph at the end, in place of one that was there; fonts without a space and a fallback get
      none. */
  function WithTab(glyphs: seq<Glyph>, fallback: Found): (r: seq<Glyph>)
    requires |glyphs| > 0 && (fallback.GlyphAt? ==> fallback.index < |glyphs|)
    ensures |r| >= |glyphs|
  {
    match Seen(glyphs, SPACE, fallback)
    case Nothing => glyphs
    case GlyphAt(i) =>
      (if glyphs[|glyphs| - 1].codepoint == TAB then glyphs[..|glyphs| - 1] else glyphs) + [TabFrom(glyphs[i])]
  }

  /** The glyph shown for code points without one. */
  function FallbackOf(codes: seq<nat>, preferred: nat): (r: Found)
    requires |codes| > 0
    ensures r.GlyphAt? && r.index < |codes|
  {
    if LastOf(codes, preferred).GlyphAt? then LastOf(codes, preferred)
    else if LastOf(codes, 0xFFFD).GlyphAt? then LastOf(codes, 0xFFFD)
    else if LastOf(codes, 63).GlyphAt? then LastOf(codes, 63)
    else if LastOf(codes, SPACE).GlyphAt? then LastOf(codes, SPACE)
    else if LastOf(codes, 0).GlyphAt? then LastOf(codes, 0)
    else GlyphAt(|codes| - 1)
  }

  /** The glyph at `index` is the last of its code point, which is the first of these five that has a glyph: the
      preferred one, U+FFFD, the question mark, the space, 0. Without any, it is the last glyph. */
  ghost predicate Preferred(codes: seq<nat>, preferred: nat, index: nat) {
    && index < |codes|
    && (forall i | index < i < |codes| :: codes[i] != codes[index])
    && var five := [preferred, 0xFFFD, 63, 32, 0];
       || (exists k | 0 <= k < 5 :: codes[index] == five[k] && forall m | 0 <= m < k :: five[m] !in codes)
       || (index == |codes| - 1 && forall m | 0 <= m < 5 :: five[m] !in codes)
  }

  lemma FallbackIs(codes: seq<nat>, preferred: nat)
    requires |codes| > 0
    ensures Preferred(codes, preferred, FallbackOf(codes, preferred).index)
  {
    hide LastOf;
    var five := [preferred, 0xFFFD, 63, 32, 0];
    assert five[0] == preferred && five[1] == 0xFFFD && five[2] == 63 && five[3] == 32 && five[4] == 0;
  }

  /** A glyph that space is shown with: the last one of its own, or what stood in for missing glyphs before. */
  ghost predicate ShowsSpace(glyphs: seq<Glyph>, fallback: Found, s: nat) {
    && s < |glyphs|
    && if exists i | 0 <= i < |glyphs| :: glyphs[i].codepoint == 32
       then glyphs[s].codepoint == 32 && forall i | s < i < |glyphs| :: glyphs[i].codepoint != 32
       else fallback == GlyphAt(s)
  }

  /** With glyph s showing the space, the glyphs are followed by a TAB of its advance times four, in place of one that
      was there; neither shows anything, and nothing else has changed. */
  ghost predicate Tabbed(was: seq<Glyph>, s: nat, now: seq<Glyph>) {
    && s < |was| && |now| == (if was[|was| - 1].codepoint == 9 then |was| else |was| + 1)
    && now[|now| - 1].codepoint == 9 && now[|now| - 1].advance == 4.0 * was[s].advance
    && !now[|now| - 1].visible
    && forall i | 0 <= i < |now| - 1 :: now[i] == was[i].(visible := was[i].visible && i != s)
  }

  /** No glyph shows the space: none is added, and only the last TAB, if there is one, stops showing anything. */
  ghost predicate Untabbed(was: seq<Glyph>, now: seq<Glyph>) {
    && |now| == |was|
    && forall i | 0 <= i < |now| ::
         now[i] == was[i].(visible := was[i].visible &&
           !(was[i].codepoint == 9 && forall j | i < j < |was| :: was[j].codepoint != 9))
  }

  /** The TAB glyph takes the last place over: no entry changes but its own advance. */
  lemma ReplaceTab(lookup: seq<nat>, adv: seq<real>, glyphs: seq<Glyph>, tab: Glyph)
    requires |glyphs| > 0 && glyphs[|glyphs| - 1].codepoint == TAB == tab.codepoint
    requires Answers(lookup, CodesOf(glyphs)) && Advances(adv, glyphs) && |adv| == |lookup|
    ensures TAB < |lookup|
    ensures
      var glyphs' := glyphs[|glyphs| - 1 := tab];
      && CodesOf(glyphs') == CodesOf(glyphs)
      && lookup[TAB := |glyphs| - 1] == lookup
      && Advances(adv[TAB := tab.advance], glyphs')
  {
    var codes := CodesOf(glyphs);
    var glyphs' := glyphs[|glyphs| - 1 := tab];
    assert codes[|codes| - 1] == TAB;
    assert CodesOf(glyphs') == codes;
  }

  /** Glyphs that differ in visibility only look up alike. */
  lemma SameCodes(a: seq<Glyph>, b: seq<Glyph>)
    requires |a| == |b| && forall i | 0 <= i < |a| :: b[i].codepoint == a[i].codepoint
    ensures CodesOf(a) == CodesOf(b)
  {
    assert CodesOf(a) == CodesOf(b);
  }

  lemma SameAdvances(a: seq<Glyph>, b: seq<Glyph>, adv: seq<real>)
    requires |a| == |b|
    requires forall i | 0 <= i < |a| :: b[i].codepoint == a[i].codepoint && b[i].advance == a[i].advance
    ensures Advances(adv, a) ==> Advances(adv, b)
  {
    SameCodes(a, b);
  }

  /** The glyph found is shown or hidden. */
  function Shown(glyphs: seq<Glyph>, f: Found, visible: bool): (r: seq<Glyph>)
    requires f.GlyphAt? ==> f.index < |glyphs|
    ensures |r| == |glyphs|
    ensures forall i | 0 <= i < |r| ::
      r[i] == glyphs[i].(visible := if f == GlyphAt(i) then visible else glyphs[i].visible)
  {
    match f
    case Nothing => glyphs
    case GlyphAt(i) => glyphs[i := glyphs[i].(visible := visible)]
  }

  /** The glyph that a code point shows is marked as not visible. */
  function Hidden(glyphs: seq<Glyph>, c: nat, fallback: Found): (r: seq<Glyph>)
    requires fallback.GlyphAt? ==> fallback.index < |glyphs|
    ensures |r| == |glyphs|
  {
    Shown(glyphs, Seen(glyphs, c, fallback), false)
  }

  /** The glyphs after a build: with a TAB, and with nothing visible for space and TAB. */
  function WithBlanks(glyphs: seq<Glyph>, fallback: Found): seq<Glyph>
    requires |glyphs| > 0 && (fallback.GlyphAt? ==> fallback.index < |glyphs|)
  {
    Hidden(Hidden(WithTab(glyphs, fallback), SPACE, fallback), TAB, fallback)
  }

  lemma LastIs(glyphs: seq<Glyph>, c: nat)
    ensures
      var f := LastOf(CodesOf(glyphs), c);
      if exists i | 0 <= i < |glyphs| :: glyphs[i].codepoint == c
      then f.GlyphAt? && f.index < |glyphs| && glyphs[f.index].codepoint == c
           && forall i | f.index < i < |glyphs| :: glyphs[i].codepoint != c
      else f.Nothing?
  {
    hide LastOf;
    var codes := CodesOf(glyphs);
    if i :| 0 <= i < |glyphs| && glyphs[i].codepoint == c {
      assert codes[i] == c;
    }
    if f :| f == LastOf(codes, c) && f.GlyphAt? {
      assert glyphs[f.index].codepoint == codes[f.index];
      assert forall i | f.index < i < |glyphs| :: codes[i] == glyphs[i].codepoint;
    }
  }

  lemma SeenIs(glyphs: seq<Glyph>, fallback: Found, s: nat)
    requires fallback.GlyphAt? ==> fallback.index < |glyphs|
    ensures ShowsSpace(glyphs, fallback, s) <==> Seen(glyphs, SPACE, fallback) == GlyphAt(s)
  {
    hide LastOf;
    LastIs(glyphs, 32);
    if ShowsSpace(glyphs, fallback, s) && exists i | 0 <= i < |glyphs| :: glyphs[i].codepoint == 32 {
      var f := LastOf(CodesOf(glyphs), 32).index;
      assert f == s by {
        assert glyphs[f].codepoint == 32 && glyphs[s].codepoint == 32;
      }
    }
  }

  /** The TAB at the end changes nothing about what shows the space. */
  lemma TabKeepsSpace(glyphs: seq<Glyph>, fallback: Found, s: nat, all: seq<Glyph>)
    requires |glyphs| > 0 && (fallback.GlyphAt? ==> fallback.index < |glyphs|) && ShowsSpace(glyphs, fallback, s)
    requires |all| == (if glyphs[|glyphs| - 1].codepoint == 9 then |glyphs| else |glyphs| + 1)
    requires all[|all| - 1].codepoint == 9 && forall i | 0 <= i < |all| - 1 :: all[i] == glyphs[i]
    ensures ShowsSpace(all, fallback, s)
  {
    if i :| 0 <= i < |glyphs| && glyphs[i].codepoint == 32 {
      assert all[i].codepoint == 32;
    }
  }

  /** With a glyph that shows the space, a build adds the TAB and hides both. */
  lemma TabbedIs(glyphs: seq<Glyph>, fallback: Found, s: nat)
    requires |glyphs| > 0 && (fallback.GlyphAt? ==> fallback.index < |glyphs|) && ShowsSpace(glyphs, fallback, s)
    ensures Tabbed(glyphs, s, WithBlanks(glyphs, fallback))
  {
    hide LastOf, ShowsSpace, Seen;
    SeenIs(glyphs, fallback, s);
    var all := WithTab(glyphs, fallback);
    TabKeepsSpace(glyphs, fallback, s, all);
    SeenIs(all, fallback, s);
    var one := Shown(all, GlyphAt(s), false);
    assert one[|one| - 1].codepoint == 9;
    SeenLast(one, fallback);
  }

  lemma SeenLast(glyphs: seq<Glyph>, fallback: Found)
    requires |glyphs| > 0 && (fallback.GlyphAt? ==> fallback.index < |glyphs|)
    ensures Seen(glyphs, glyphs[|glyphs| - 1].codepoint, fallback) == GlyphAt(|glyphs| - 1)
  {
  }

  /** Without one, it only hides a TAB that is there. */
  lemma UntabbedIs(glyphs: seq<Glyph>, fallback: Found)
    requires |glyphs| > 0 && (fallback.GlyphAt? ==> fallback.index < |glyphs|)
    requires forall s :: !ShowsSpace(glyphs, fallback, s)
    ensures Untabbed(glyphs, WithBlanks(glyphs, fallback))
  {
    hide LastOf, ShowsSpace;
    if Seen(glyphs, SPACE, fallback).GlyphAt? {
      SeenIs(glyphs, fallback, Seen(glyphs, SPACE, fallback).index);
    }
    LastIs(glyphs, 9);
  }

  lemma BlanksAre(glyphs: seq<Glyph>, fallback: Found)
    requires |glyphs| > 0 && (fallback.GlyphAt? ==> fallback.index < |glyphs|)
    ensures
      WithBlanks(glyphs, fallback) == Hidden(Hidden(WithTab(glyphs, fallback), SPACE, fallback), TAB, fallback)
    ensures forall s :: ShowsSpace(glyphs, fallback, s) ==> Tabbed(glyphs, s, WithBlanks(glyphs, fallback))
    ensures (forall s :: !ShowsSpace(glyphs, fallback, s)) ==> Untabbed(glyphs, WithBlanks(glyphs, fallback))
  {
    hide ShowsSpace, Tabbed, Untabbed, Hidden, WithTab;
    forall s | ShowsSpace(glyphs, fallback, s) ensures Tabbed(glyphs, s, WithBlanks(glyphs, fallback)) {
      TabbedIs(glyphs, fallback, s);
    }
    if forall s :: !ShowsSpace(glyphs, fallback, s) {
      UntabbedIs(glyphs, fallback);
    }
  }

  /** A build that leaves a page in use unmarked: one glyph on another page, which is the fallback from before. */
  lemma UnmarkedTab()
    ensures
      var glyphs := [Glyph(2 * PAGE, 1.0, true)];
      && Seen(glyphs, SPACE, GlyphAt(0)).GlyphAt? && !OnPage(CodesOf(glyphs), 0)
  {
    assert CodesOf([Glyph(2 * PAGE, 1.0, true)]) == [2 * PAGE];
    assert LastOf([2 * PAGE], SPACE) == LastOf([], SPACE);
  }

  /** What a lookup table finds for a code point. */
  function FoundIn(lookup: seq<nat>, c: nat): Found {
    if c >= |lookup| || lookup[c] == NO_GLYPH then Nothing else GlyphAt(lookup[c])
  }

  // ---------------------------------------------------------------------------------------------
  // Remapping
  // ---------------------------------------------------------------------------------------------

  /** A remap that is not to overwrite is only held back where there is nothing to protect. */
  predicate RemapIgnored(lookup: seq<nat>, dst: nat, src: nat, overwrite: bool) {
    || (dst < |lookup| && lookup[dst] == NO_GLYPH && !overwrite)
    || (src >= |lookup| && dst >= |lookup|)
  }

  /** The table with the entry of `src` at `dst` also, grown as far as needed. */
  function Remapped(lookup: seq<nat>, dst: nat, src: nat, overwrite: bool): seq<nat> {
    if RemapIgnored(lookup, dst, src, overwrite) then lookup
    else
      var grown := if dst < |lookup| then lookup else lookup + seq(dst + 1 - |lookup|, _ => NO_GLYPH);
      grown[dst := if src < |lookup| then lookup[src] else NO_GLYPH]
  }

  /** A remap that is carried out makes `dst` find what `src` found, and no remap changes any other code point. */
  lemma RemappedFinds(lookup: seq<nat>, dst: nat, src: nat, overwrite: bool, c: nat)
    ensures
      FoundIn(Remapped(lookup, dst, src, overwrite), c)
      == FoundIn(lookup, if c == dst && !RemapIgnored(lookup, dst, src, overwrite) then src else c)
  {
  }

  /** Whether or not it may be overwritten, a code point that has a glyph keeps it exactly when `src` finds the same
      one; one without a glyph keeps having none when it may not be overwritten, too. */
  lemma RemapKeepsIff(lookup: seq<nat>, dst: nat, src: nat, overwrite: bool)
    ensures FoundIn(lookup, dst).GlyphAt? ==>
      (FoundIn(Remapped(lookup, dst, src, overwrite), dst) == FoundIn(lookup, dst)
       <==> FoundIn(lookup, src) == FoundIn(lookup, dst))
    ensures FoundIn(lookup, dst).Nothing? ==>
      (FoundIn(Remapped(lookup, dst, src, overwrite), dst) == FoundIn(lookup, dst)
       <==> FoundIn(lookup, src).Nothing? || (dst < |lookup| && !overwrite))
  {
    hide Remapped;
    RemappedFinds(lookup, dst, src, overwrite, dst);
  }

  /** Two code points with a glyph each: the first is redirected to the second although it is not to be overwritten. */
  lemma RemapExample()
    ensures FoundIn([0, 1], 0) == GlyphAt(0) && FoundIn(Remapped([0, 1], 0, 1, false), 0) == GlyphAt(1)
  {
    RemappedFinds([0, 1], 0, 1, false, 0);
  }

  class Font {
    var glyphs: seq<Glyph>
    var indexLookup: seq<nat>
    var indexAdvance: seq<real>
    var used4kPages: seq<bv8>
    var fallbackGlyph: Found
    var fallbackChar: nat
    var fallbackAdvance: real

    /** The lookup table belongs to the glyphs. */
    ghost predicate Tables()
      reads `glyphs, `indexLookup, `indexAdvance
    {
      Answers(indexLookup, CodesOf(glyphs)) && |indexAdvance| == |indexLookup|
    }

    /** The page map belongs to them too. */
    ghost predicate Paged()
      reads `glyphs, `used4kPages
    {
      PagesOf(used4kPages, CodesOf(glyphs))
    }

    ghost predicate Built()
      reads `glyphs, `indexLookup, `indexAdvance, `fallbackGlyph
    {
      Tables() && fallbackGlyph.GlyphAt? && fallbackGlyph.index < |glyphs|
    }

    constructor (glyphs: seq<Glyph>, fallbackChar: nat)
      ensures this.glyphs == glyphs && this.fallbackChar == fallbackChar && fallbackGlyph == Nothing
    {
      this.glyphs := glyphs;
      this.fallbackChar := fallbackChar;
      indexLookup, indexAdvance, used4kPages := [], [], [];
      fallbackGlyph, fallbackAdvance := Nothing, 0.0;
    }

    function FindGlyphNoFallback(c: nat): (r: Found)
      reads `indexLookup, `glyphs
    {
      FoundIn(indexLookup, c)
    }

    function FindGlyph(c: nat): (r: Found)
      reads `indexLookup, `glyphs, `fallbackGlyph
    {
      if c >= |indexLookup| || indexLookup[c] == NO_GLYPH then fallbackGlyph else GlyphAt(indexLookup[c])
    }

    /** The table finds what the search finds. */
    lemma FindsLast(c: nat)
      requires Answers(indexLookup, CodesOf(glyphs))
      ensures FindGlyphNoFallback(c) == LastOf(CodesOf(glyphs), c)
    {
      var codes := CodesOf(glyphs);
      if c >= |indexLookup| {
        assert c !in codes;
      }
    }

    /** Once built, every code point has a glyph: its own last one, or the fallback. */
    lemma NeverMissing(c: nat)
      requires Built()
      ensures FindGlyph(c).GlyphAt? && FindGlyph(c).index < |glyphs|
      ensures FindGlyph(c) == if LastOf(CodesOf(glyphs), c).GlyphAt? then LastOf(CodesOf(glyphs), c) else fallbackGlyph
    {
      FindsLast(c);
    }

    method GrowIndex(newSize: nat)
      requires |indexAdvance| == |indexLookup|
      modifies `indexLookup, `indexAdvance
      ensures |indexAdvance| == |indexLookup| && |indexLookup| == Larger(old(|indexLookup|), newSize)
      ensures indexLookup[..old(|indexLookup|)] == old(indexLookup)
      ensures indexAdvance[..old(|indexAdvance|)] == old(indexAdvance)
      ensures forall c | old(|indexLookup|) <= c < |indexLookup| ::
        indexLookup[c] == 0xFFFF && indexAdvance[c] == -1.0
    {
      if newSize <= |indexLookup| {
        return;
      }
      indexAdvance := indexAdvance + seq(newSize - |indexAdvance|, _ => -1.0);
      indexLookup := indexLookup + seq(newSize - |indexLookup|, _ => NO_GLYPH);
    }

    /** The largest code point. */
    method MaxCodepoint() returns (m: nat)
      ensures forall i | 0 <= i < |glyphs| :: glyphs[i].codepoint <= m
      ensures m == 0 || exists i | 0 <= i < |glyphs| :: glyphs[i].codepoint == m
    {
      m := 0;
      var i := 0;
      while i != |glyphs|
        invariant 0 <= i <= |glyphs|
        invariant forall k | 0 <= k < i :: glyphs[k].codepoint <= m
        invariant m == 0 || exists k | 0 <= k < |glyphs| :: glyphs[k].codepoint == m
      {
        m := Larger(m, glyphs[i].codepoint);
        i := i + 1;
      }
    }

    /** The tables after the first n glyphs. */
    ghost predicate Filling(n: nat)
      reads this
    {
      && n <= |glyphs| < NO_GLYPH
      && (forall i | 0 <= i < |glyphs| :: glyphs[i].codepoint < |indexLookup| && glyphs[i].codepoint <= CODEPOINT_MAX)
      && Answers(indexLookup, CodesOf(glyphs[..n]))
      && PagesOf(used4kPages, CodesOf(glyphs[..n]))
      && |indexAdvance| == |indexLookup| && Advances(indexAdvance, glyphs[..n])
    }

    method EnterGlyph(i: nat)
      requires Filling(i) && i < |glyphs|
      modifies `indexLookup, `indexAdvance, `used4kPages
      ensures Filling(i + 1) && |indexLookup| == old(|indexLookup|)
    {
      hide Answers, PagesOf, Advances, CodesOf, Mask, Join;
      var codepoint := glyphs[i].codepoint;
      assert glyphs[..i + 1] == glyphs[..i] + [glyphs[i]];
      assert |CodesOf(glyphs[..i])| == i;
      CodesPush(glyphs[..i], glyphs[i]);
      AnswersPush(indexLookup, CodesOf(glyphs[..i]), codepoint);
      AdvancesPush(indexAdvance, glyphs[..i], glyphs[i]);
      PagesPush(used4kPages, CodesOf(glyphs[..i]), codepoint);
      PagesLength(used4kPages, CodesOf(glyphs[..i]));
      indexAdvance := indexAdvance[codepoint := glyphs[i].advance];
      indexLookup := indexLookup[codepoint := i];
      var page := codepoint / PAGE;
      used4kPages := used4kPages[page / 8 := Join(used4kPages[page / 8], Mask(page % 8))];
    }

    /** The tables for the glyphs as they are. */
    method BuildTables()
      requires 0 < |glyphs| < NO_GLYPH && forall i | 0 <= i < |glyphs| :: glyphs[i].codepoint <= CODEPOINT_MAX
      modifies `indexLookup, `indexAdvance, `used4kPages
      ensures Filling(|glyphs|)
    {
      var maxCodepoint := MaxCodepoint();
      indexAdvance, indexLookup := [], [];
      used4kPages := seq(PAGES / 8, _ => 0);
      GrowIndex(maxCodepoint + 1);
      StartFilling();
      var i := 0;
      while i < |glyphs|
        invariant 0 <= i <= |glyphs| && Filling(i)
      {
        EnterGlyph(i);
        i := i + 1;
      }
    }

    lemma StartFilling()
      requires |glyphs| < NO_GLYPH && forall i | 0 <= i < |glyphs| :: glyphs[i].codepoint <= CODEPOINT_MAX
      requires forall i | 0 <= i < |glyphs| :: glyphs[i].codepoint < |indexLookup|
      requires |indexAdvance| == |indexLookup|
      requires forall c | 0 <= c < |indexLookup| :: indexLookup[c] == NO_GLYPH && indexAdvance[c] == -1.0
      requires |used4kPages| == PAGES / 8 && forall k | 0 <= k < |used4kPages| :: used4kPages[k] == 0
      ensures Filling(0)
    {
      assert CodesOf(glyphs[..0]) == [];
      AnswersNothing(indexLookup);
      forall p | 0 <= p < PAGES ensures !PageUsed(used4kPages, p) {
        NoPages(used4kPages, p);
      }
    }

    /** The tables belong to the glyphs, missing advances not yet filled in; a fallback may be left from an earlier
        build. */
    ghost predicate Unfinished()
      reads this
    {
      && Tables() && |glyphs| > 0 && Advances(indexAdvance, glyphs)
      && (fallbackGlyph.GlyphAt? ==> fallbackGlyph.index < |glyphs|)
    }

    lemma AllFilled()
      requires Filling(|glyphs|) && |glyphs| > 0 && (fallbackGlyph.GlyphAt? ==> fallbackGlyph.index < |glyphs|)
      ensures Unfinished() && Paged()
    {
      assert glyphs[..|glyphs|] == glyphs;
    }

    /** Synthesises the TAB glyph from the space glyph, or from what stands for it. Its page is not marked: it is in use
        anyway, unless no other glyph is on it. */
    method AddTab()
      requires Unfinished() && Paged() && |glyphs| < NO_GLYPH
      requires Seen(glyphs, SPACE, fallbackGlyph).GlyphAt? ==> TAB < |indexLookup|
      modifies `glyphs, `indexLookup, `indexAdvance
      ensures Unfinished() && glyphs == WithTab(old(glyphs), fallbackGlyph)
      ensures Paged() <==> Seen(old(glyphs), SPACE, fallbackGlyph).Nothing? || OnPage(CodesOf(old(glyphs)), 0)
    {
      hide Answers, Advances, PagesOf, OnPage;
      FindsSeen(SPACE);
      var space := FindGlyph(SPACE);
      if space.GlyphAt? {
        if glyphs[|glyphs| - 1].codepoint != TAB {
          AppendTab(space.index);
        } else {
          OverwriteTab(space.index);
        }
      }
    }

    method AppendTab(space: nat)
      requires Unfinished() && Paged() && |glyphs| < NO_GLYPH && space < |glyphs| && TAB < |indexLookup|
      modifies `glyphs, `indexLookup, `indexAdvance
      ensures Unfinished() && glyphs == old(glyphs) + [TabFrom(old(glyphs)[space])]
      ensures Paged() <==> OnPage(CodesOf(old(glyphs)), 0)
    {
      hide Advances, PagesOf, OnPage;
      var tab := TabFrom(glyphs[space]);
      ghost var codes := CodesOf(glyphs);
      CodesPush(glyphs, tab);
      AnswersPush(indexLookup, codes, TAB);
      AdvancesPush(indexAdvance, glyphs, tab);
      PagesPushIff(used4kPages, codes, TAB);
      glyphs := glyphs + [tab];
      indexAdvance := indexAdvance[TAB := tab.advance];
      indexLookup := indexLookup[TAB := |glyphs| - 1];
    }

    method OverwriteTab(space: nat)
      requires Unfinished() && Paged() && glyphs[|glyphs| - 1].codepoint == TAB && space < |glyphs|
      modifies `glyphs, `indexLookup, `indexAdvance
      ensures Unfinished() && glyphs == old(glyphs)[..old(|glyphs|) - 1] + [TabFrom(old(glyphs)[space])]
      ensures Paged() && OnPage(CodesOf(old(glyphs)), 0)
    {
      hide Answers, Advances, PagesOf;
      var tab := TabFrom(glyphs[space]);
      ReplaceTab(indexLookup, indexAdvance, glyphs, tab);
      assert CodesOf(glyphs)[|glyphs| - 1] / PAGE == 0;
      glyphs := glyphs[|glyphs| - 1 := tab];
      indexAdvance := indexAdvance[TAB := tab.advance];
      indexLookup := indexLookup[TAB := |glyphs| - 1];
    }

    /** Shows or hides the glyph that a lookup finds, which for a code point without a glyph is the fallback, if there
        is one. Every table stays as it is and goes on fitting the glyphs. */
    method SetGlyphVisible(c: nat, visible: bool)
      requires FindGlyph(c).GlyphAt? ==> FindGlyph(c).index < |glyphs|
      modifies `glyphs
      ensures glyphs == Shown(old(glyphs), old(FindGlyph(c)), visible)
      ensures old(Unfinished()) ==> Unfinished()
      ensures old(Paged()) <==> Paged()
      ensures old(Built()) ==> Built()
      ensures old(Ready()) ==> Ready()
    {
      hide Answers, PagesOf, Advances;
      var glyph := FindGlyph(c);
      if glyph.GlyphAt? {
        ghost var was := glyphs;
        glyphs := glyphs[glyph.index := glyphs[glyph.index].(visible := visible)];
        SameCodes(was, glyphs);
        SameAdvances(was, glyphs, indexAdvance);
      }
    }

    lemma FindsSeen(c: nat)
      requires Unfinished()
      ensures FindGlyph(c) == Seen(glyphs, c, fallbackGlyph)
    {
      FindsLast(c);
    }

    method FindFirstExistingGlyph(candidates: seq<nat>) returns (c: nat)
      ensures c == 0 || FindGlyphNoFallback(c).GlyphAt?
      ensures c != 0 ==> exists n | 0 <= n < |candidates| ::
        candidates[n] == c && forall m | 0 <= m < n :: FindGlyphNoFallback(candidates[m]).Nothing?
      ensures c == 0 && 0 !in candidates ==>
        forall n | 0 <= n < |candidates| :: FindGlyphNoFallback(candidates[n]).Nothing?
    {
      var n := 0;
      while n < |candidates|
        invariant 0 <= n <= |candidates|
        invariant forall m | 0 <= m < n :: FindGlyphNoFallback(candidates[m]).Nothing?
      {
        if FindGlyphNoFallback(candidates[n]) != Nothing {
          return candidates[n];
        }
        n := n + 1;
      }
      return 0;
    }

    /** Chooses the fallback glyph: the preferred one, else the first there is, else the last glyph. */
    method SetupFallback()
      requires Unfinished()
      modifies `fallbackGlyph, `fallbackChar, `fallbackAdvance
      ensures fallbackGlyph == FallbackOf(CodesOf(glyphs), old(fallbackChar)) && Built()
      ensures Preferred(CodesOf(glyphs), old(fallbackChar), fallbackGlyph.index)
      ensures fallbackChar == glyphs[fallbackGlyph.index].codepoint
      ensures fallbackAdvance == glyphs[fallbackGlyph.index].advance
    {
      hide Answers, Advances, PagesOf, LastOf, CodesOf, Preferred;
      FindsLast(fallbackChar);
      FindsLast(0xFFFD);
      FindsLast(63);
      FindsLast(SPACE);
      FindsLast(0);
      fallbackGlyph := FindGlyphNoFallback(fallbackChar);
      if fallbackGlyph == Nothing {
        var candidates := [0xFFFD, 63, SPACE];
        fallbackChar := FindFirstExistingGlyph(candidates);
        assert candidates[0] == 0xFFFD && candidates[1] == 63 && candidates[2] == SPACE;
        fallbackGlyph := FindGlyphNoFallback(fallbackChar);
        if fallbackGlyph == Nothing {
          fallbackGlyph := GlyphAt(|glyphs| - 1);
          fallbackChar := glyphs[fallbackGlyph.index].codepoint;
        }
      }
      fallbackAdvance := glyphs[fallbackGlyph.index].advance;
      FallbackIs(CodesOf(glyphs), old(fallbackChar));
    }

    /** Missing and negative advances become the fallback's. */
    method FillAdvances()
      requires Advances(indexAdvance, glyphs)
      modifies `indexAdvance
      ensures |indexAdvance| == old(|indexAdvance|) && Filled()
    {
      hide Advances;
      ghost var was := indexAdvance;
      var i := 0;
      while i < |indexAdvance|
        invariant 0 <= i <= |indexAdvance| == |was|
        invariant forall c | 0 <= c < |was| ::
          indexAdvance[c] == if c < i && was[c] < 0.0 then fallbackAdvance else was[c]
      {
        if indexAdvance[i] < 0.0 {
          indexAdvance := indexAdvance[i := fallbackAdvance];
        }
        i := i + 1;
      }
      FilledFrom(was);
    }

    lemma FilledFrom(was: seq<real>)
      requires Advances(was, glyphs) && |was| == |indexAdvance|
      requires forall c | 0 <= c < |was| :: indexAdvance[c] == if was[c] < 0.0 then fallbackAdvance else was[c]
      ensures Filled()
    {
    }

    ghost predicate Filled()
      reads `indexAdvance, `glyphs, `fallbackAdvance
    {
      forall c | 0 <= c < |indexAdvance| ::
        indexAdvance[c] == if AdvanceOf(glyphs, c) < 0.0 then fallbackAdvance else AdvanceOf(glyphs, c)
    }

    /** Everything a lookup may count on once the tables are built. */
    ghost predicate Ready()
      reads this
    {
      Built() && Filled() && fallbackAdvance == glyphs[fallbackGlyph.index].advance
    }

    /** What space and TAB show becomes invisible. */
    method HideBlanks()
      requires Unfinished()
      modifies `glyphs
      ensures Unfinished() && (old(Paged()) <==> Paged())
      ensures glyphs == Hidden(Hidden(old(glyphs), SPACE, fallbackGlyph), TAB, fallbackGlyph)
    {
      hide Font.Unfinished, Font.Built, Font.Ready, Font.Paged, Answers, Advances, PagesOf;
      FallbackInside();
      FindsSeen(SPACE);
      SetGlyphVisible(SPACE, false);
      FindsSeen(TAB);
      SetGlyphVisible(TAB, false);
    }

    lemma FallbackInside()
      requires Unfinished()
      ensures |glyphs| > 0 && (fallbackGlyph.GlyphAt? ==> fallbackGlyph.index < |glyphs|)
    {
    }

    /**
     * Builds the tables of a font: the glyphs get their TAB, and what space and TAB show becomes
     * invisible; the fallback is chosen among what is there. A fallback left from an earlier build
     * stands in for a missing space, also where the TAB is made and what is hidden. The page map fits
     * the glyphs unless the TAB so made is alone on its page.
     */
    method BuildLookupTable()
      requires 0 < |glyphs| < NO_GLYPH && forall i | 0 <= i < |glyphs| :: glyphs[i].codepoint <= CODEPOINT_MAX
      requires fallbackGlyph.GlyphAt? ==>
        fallbackGlyph.index < |glyphs| && exists i | 0 <= i < |glyphs| :: glyphs[i].codepoint >= TAB
      modifies this
      ensures Ready()
      ensures glyphs == WithBlanks(old(glyphs), old(fallbackGlyph))
      ensures fallbackGlyph == FallbackOf(CodesOf(glyphs), old(fallbackChar))
      ensures Preferred(CodesOf(glyphs), old(fallbackChar), fallbackGlyph.index)
      ensures forall s :: ShowsSpace(old(glyphs), old(fallbackGlyph), s) ==> Tabbed(old(glyphs), s, glyphs)
      ensures (forall s :: !ShowsSpace(old(glyphs), old(fallbackGlyph), s)) ==> Untabbed(old(glyphs), glyphs)
      ensures Paged() <==> Seen(old(glyphs), SPACE, old(fallbackGlyph)).Nothing? || OnPage(CodesOf(old(glyphs)), 0)
    {
      hide Font.Filling, Font.Unfinished, Font.Paged, Answers, Advances, PagesOf, Hidden, FallbackOf, WithTab, OnPage,
        WithBlanks, ShowsSpace, Tabbed, Untabbed, Preferred;
      BlanksAre(glyphs, fallbackGlyph);
      BuildTables();
      AllFilled();
      RoomForTab();
      AddTab();
      FallbackInside();
      HideBlanks();
      UnfinishedAdvances();
      SetupFallback();
      FillAdvances();
    }

    /** Where a TAB is to be made, the tables reach as far as its code point. */
    lemma RoomForTab()
      requires Filling(|glyphs|)
      requires fallbackGlyph.GlyphAt? ==>
        fallbackGlyph.index < |glyphs| && exists i | 0 <= i < |glyphs| :: glyphs[i].codepoint >= TAB
      ensures Seen(glyphs, SPACE, fallbackGlyph).GlyphAt? ==> TAB < |indexLookup|
    {
      var own := LastOf(CodesOf(glyphs), SPACE);
      assert own.GlyphAt? ==> glyphs[own.index].codepoint == SPACE;
    }

    lemma UnfinishedAdvances()
      requires Unfinished()
      ensures Advances(indexAdvance, glyphs)
    {
    }

    function GetCharAdvance(c: nat): real
      reads `indexAdvance, `fallbackAdvance
    {
      if c < |indexAdvance| then indexAdvance[c] else fallbackAdvance
    }

    /**
     * The advance by table is the advance of the glyph that the same lookup finds, unless that glyph
     * has a negative advance of its own: then it is the fallback's.
     */
    lemma AdvanceAgrees(c: nat)
      requires Ready()
      ensures FindGlyph(c).GlyphAt? && FindGlyph(c).index < |glyphs|
      ensures
        var advance := glyphs[FindGlyph(c).index].advance;
        GetCharAdvance(c) == advance <==> advance >= 0.0 || advance == fallbackAdvance
    {
      NeverMissing(c);
      if c >= |indexLookup| {
        assert c !in CodesOf(glyphs);
      }
    }

    /**
     * Makes `dst` look up as `src` does. Not allowing an overwrite stops this only for a code point
     * inside the table that has no glyph; one that has a glyph is redirected all the same. Code points
     * between the end of the table and `dst` had the fallback's advance, and now have -1.
     */
    method AddRemapChar(dst: nat, src: nat, overwrite: bool)
      requires |indexAdvance| == |indexLookup| && |indexLookup| > 0
      modifies `indexLookup, `indexAdvance
      ensures |indexAdvance| == |indexLookup| && indexLookup == Remapped(old(indexLookup), dst, src, overwrite)
      ensures dst < old(|indexLookup|) && old(indexLookup)[dst] == 0xFFFF && !overwrite ==>
        indexLookup == old(indexLookup) && indexAdvance == old(indexAdvance)
      ensures dst >= old(|indexLookup|) && src >= old(|indexLookup|) ==>
        indexLookup == old(indexLookup) && indexAdvance == old(indexAdvance)
      ensures (if dst < old(|indexLookup|) then old(indexLookup)[dst] != 0xFFFF || overwrite
               else src < old(|indexLookup|)) ==>
        && |indexLookup| == Larger(old(|indexLookup|), dst + 1)
        && indexLookup[dst] == (if src < old(|indexLookup|) then old(indexLookup)[src] else 0xFFFF)
        && indexAdvance[dst] == (if src < old(|indexLookup|) then old(indexAdvance)[src] else 1.0)
        && forall c | 0 <= c < |indexLookup| && c != dst ::
             indexLookup[c] == if c < old(|indexLookup|) then old(indexLookup)[c] else 0xFFFF
      ensures old(RemapIgnored(indexLookup, dst, src, overwrite)) ==> indexAdvance == old(indexAdvance)
      ensures !old(RemapIgnored(indexLookup, dst, src, overwrite)) ==>
        GetCharAdvance(dst) == if src < old(|indexAdvance|) then old(indexAdvance)[src] else 1.0
      ensures forall c: nat | c != dst && (c < old(|indexAdvance|) || c > dst) ::
        GetCharAdvance(c) == old(GetCharAdvance(c))
      ensures forall c: nat | old(|indexAdvance|) <= c < dst && !old(RemapIgnored(indexLookup, dst, src, overwrite)) ::
        GetCharAdvance(c) == -1.0
    {
      var indexSize := |indexLookup|;
      if dst < indexSize && indexLookup[dst] == NO_GLYPH && !overwrite {
        return;
      }
      if src >= indexSize && dst >= indexSize {
        return;
      }
      ghost var was, wasAdvance := indexLookup, indexAdvance;
      GrowIndex(dst + 1);
      assert forall c | 0 <= c < |was| :: indexLookup[c] == indexLookup[..|was|][c] == was[c];
      assert forall c | 0 <= c < |was| :: indexAdvance[c] == indexAdvance[..|was|][c] == wasAdvance[c];
      indexLookup := indexLookup[dst := if src < indexSize then indexLookup[src] else NO_GLYPH];
      indexAdvance := indexAdvance[dst := if src < indexSize then indexAdvance[src] else 1.0];
    }

    /** No page of the range is in use, as far as the map reaches. */
    method IsGlyphRangeUnused(begin: nat, last: nat) returns (unused: bool)
      requires PagesOf(used4kPages, CodesOf(glyphs))
      ensures unused <==> forall i | 0 <= i < |glyphs| :: !(begin / 4096 <= glyphs[i].codepoint / 4096 <= last / 4096)
      ensures unused ==> forall i | 0 <= i < |glyphs| :: !(begin <= glyphs[i].codepoint <= last)
    {
      var pageBegin, pageLast := begin / PAGE, last / PAGE;
      var page := pageBegin;
      ghost var codes := CodesOf(glyphs);
      while page <= pageLast
        invariant pageBegin <= page
        invariant forall i | 0 <= i < |glyphs| :: !(pageBegin <= codes[i] / PAGE <= pageLast && codes[i] / PAGE < page)
        decreases pageLast + 1 - page
      {
        if page / 8 < |used4kPages| {
          if Meets(used4kPages[page / 8], Mask(page % 8)) {
            assert PageUsed(used4kPages, page);
            ghost var i :| 0 <= i < |codes| && codes[i] / PAGE == page;
            assert glyphs[i].codepoint == codes[i];
            return false;
          }
          assert !PageUsed(used4kPages, page);
        }
        page := page + 1;
      }
      return true;
    }
  }

  lemma PagesLength(pages: seq<bv8>, codes: seq<nat>)
    requires PagesOf(pages, codes)
    ensures |pages| == PAGES / 8
  {
  }
}