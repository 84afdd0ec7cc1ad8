/**
 * The theme switcher as values: the four-entry palette (`textureData`), the
 * visual state a theme writes (material textures, sphere, background, fog,
 * ring colour, bananas), `changeTexture`, and the click handler that applies
 * the entry at the current index and then advances the index.
 */
module Themes {
  import opened Wrappers
  import Modular

  /** A CSS colour string such as "#02101A". */
  type Color = string

  /**
   * An opaque texture handle, named by what it was loaded from: an image file,
   * or a video played from a path (or the page's own video element).
   */
  datatype Texture = ImageTexture(path: string) | VideoTexture(source: string)

  /** An entry's `type` field: "image", "video", or any other string. */
  datatype MediaKind = Image | Video | OtherKind(name: string)

  /**
   * One palette entry. `kind` is the entry's `type` field; an absent
   * `alphaPath` or `sphereColor` is None; an absent `showBananas` is false.
   */
  datatype ThemeEntry = ThemeEntry(
    kind: MediaKind,
    path: string,
    alphaPath: Option<string>,
    sphereColor: Option<Color>,
    backgroundColor: Color,
    fogColor: Color,
    shapeColor: Color,
    showBananas: bool)

  /** `if (texture.alphaPath)`: present and not the (falsy) empty string. */
  predicate HasAlpha(e: ThemeEntry)
  {
    e.alphaPath.Some? && |e.alphaPath.value| > 0
  }

  /** An image entry with an alpha map names the sphere's colour. */
  predicate WellFormed(e: ThemeEntry)
  {
    e.kind.Image? && HasAlpha(e) ==> e.sphereColor.Some?
  }

  const Palette: seq<ThemeEntry> := [
    ThemeEntry(Image, "textures/cube-concentric.png", None, None,
               "#02101A", "#02101A", "#9FC131", false),
    ThemeEntry(Image, "textures/dice.png", Some("textures/dice-alpha.png"), Some("#FF7A05"),
               "#202117", "#3D402C", "#F28705", false),
    ThemeEntry(Video, "videos/purple.mp4", None, None,
               "#160626", "#160626", "#D08BD9", false),
    ThemeEntry(Video, "videos/monku.mp4", None, None,
               "#202117", "#8C4E03", "#F2B705", true)
  ]

  /**
   * The shared visual state a theme writes: the cube material's map and alpha
   * map, the sphere's visibility and colour, the scene background (None before
   * the first click), the fog colour, the ring colour and the bananas' visibility.
   */
  datatype Visual = Visual(
    colorMap: Texture,
    alphaMap: Option<Texture>,
    sphereVisible: bool,
    sphereColor: Color,
    background: Option<Color>,
    fogColor: Color,
    shapeColor: Color,
    bananasVisible: bool)

  /**
   * `changeTexture`: clear the alpha map and hide the sphere, then load the
   * entry's image or video as the map; an image with an alpha path also gets
   * that alpha map and shows the sphere in the entry's sphere colour.
   */
  function ChangeTexture(v: Visual, e: ThemeEntry): (r: Visual)
    requires WellFormed(e)
    ensures r.background == v.background && r.fogColor == v.fogColor
    ensures r.shapeColor == v.shapeColor && r.bananasVisible == v.bananasVisible
    ensures r.sphereVisible <==> e.kind.Image? && HasAlpha(e)
    ensures r.alphaMap.Some? <==> r.sphereVisible
    ensures r.sphereVisible ==>
      r.alphaMap == Some(ImageTexture(e.alphaPath.value)) && r.sphereColor == e.sphereColor.value
    ensures !r.sphereVisible ==> r.sphereColor == v.sphereColor
    ensures e.kind.Image? ==> r.colorMap == ImageTexture(e.path)
    ensures e.kind.Video? ==> r.colorMap == VideoTexture(e.path) && r.alphaMap == None
    ensures !e.kind.Image? && !e.kind.Video? ==> r.colorMap == v.colorMap
  {
    var cleared := v.(alphaMap := None, sphereVisible := false);
    if e.kind.Image? then
      var withMap := cleared.(colorMap := ImageTexture(e.path));
      if HasAlpha(e) then
        withMap.(alphaMap := Some(ImageTexture(e.alphaPath.value)), sphereVisible := true,
                 sphereColor := e.sphereColor.value)
      else
        withMap
    else if e.kind.Video? then
      cleared.(colorMap := VideoTexture(e.path))
    else
      cleared
  }

  /**
   * What one click writes for an entry: `changeTexture`, then background, fog
   * and ring colour from the entry and the bananas shown exactly when the
   * entry says so.
   */
  function ApplyTheme(v: Visual, e: ThemeEntry): (r: Visual)
    requires WellFormed(e)
    ensures r.background == Some(e.backgroundColor)
    ensures r.fogColor == e.fogColor && r.shapeColor == e.shapeColor
    ensures r.bananasVisible == e.showBananas
    ensures r.sphereVisible <==> e.kind.Image? && HasAlpha(e)
  {
    ChangeTexture(v, e).(background := Some(e.backgroundColor), fogColor := e.fogColor,
                         shapeColor := e.shapeColor, bananasVisible := e.showBananas)
  }

  /** Applying the same entry twice is the same as applying it once. */
  lemma ApplyThemeIdempotent(v: Visual, e: ThemeEntry)
    requires WellFormed(e)
    ensures ApplyTheme(ApplyTheme(v, e), e) == ApplyTheme(v, e)
  {
  }

  /** The entries that rewrite the cube's map: every field but the sphere colour is overwritten. */
  predicate Overwrites(e: ThemeEntry)
  {
    e.kind.Image? || e.kind.Video?
  }

  /** The entries that show the sphere (and so also rewrite its colour). */
  predicate ShowsSphere(e: ThemeEntry)
  {
    e.kind.Image? && HasAlpha(e)
  }

  /**
   * Applying an overwriting entry forgets the previous state, except for the
   * sphere colour, which only an entry that shows the sphere rewrites.
   */
  lemma ApplyThemeForgets(v1: Visual, v2: Visual, e: ThemeEntry)
    requires WellFormed(e) && Overwrites(e)
    ensures ApplyTheme(v1, e) == ApplyTheme(v2, e).(sphereColor := ApplyTheme(v1, e).sphereColor)
    ensures ShowsSphere(e) || v1.sphereColor == v2.sphereColor ==> ApplyTheme(v1, e) == ApplyTheme(v2, e)
  {
  }

  /** A palette the switcher can cycle through. */
  predicate ValidPalette(p: seq<ThemeEntry>)
  {
    |p| > 0 && forall i :: 0 <= i < |p| ==> WellFormed(p[i])
  }

  /** The concrete palette: four entries, each an image or a video, and entry 1 shows the sphere. */
  lemma PaletteFacts()
    ensures ValidPalette(Palette) && |Palette| == 4
    ensures forall i :: 0 <= i < |Palette| ==> Overwrites(Palette[i])
    ensures forall i :: 0 <= i < |Palette| ==> (ShowsSphere(Palette[i]) <==> i == 1)
  {
  }

  /** The switcher: the index of the next entry to apply, and the visual state. */
  datatype ThemeState = ThemeState(index: int, visual: Visual)

  predicate ValidIndex(p: seq<ThemeEntry>, s: ThemeState)
  {
    0 <= s.index < |p|
  }

  /**
   * One click (`onMouseClick`): apply the entry at the CURRENT index, and
   * advance the index cyclically.
   */
  function Click(p: seq<ThemeEntry>, s: ThemeState): (r: ThemeState)
    requires ValidPalette(p) && ValidIndex(p, s)
    ensures ValidIndex(p, r)
    ensures r.visual.background == Some(p[s.index].backgroundColor)
  {
    ThemeState((s.index + 1) % |p|, ApplyTheme(s.visual, p[s.index]))
  }

  /** The state after `n` clicks. */
  function Clicks(p: seq<ThemeEntry>, s: ThemeState, n: nat): (r: ThemeState)
    requires ValidPalette(p) && ValidIndex(p, s)
    ensures ValidIndex(p, r)
  {
    if n == 0 then s else Click(p, Clicks(p, s, n - 1))
  }

  /** The entry that click number k + 1 applies, counting from index `start`. */
  function AppliedAt(p: seq<ThemeEntry>, start: int, k: nat): ThemeEntry
    requires |p| > 0 && 0 <= start
  {
    p[(start + k) % |p|]
  }

  /** After n clicks the index has moved n places around the palette. */
  lemma {:induction false} ClicksIndex(p: seq<ThemeEntry>, s: ThemeState, n: nat)
    requires ValidPalette(p) && ValidIndex(p, s)
    ensures Clicks(p, s, n).index == (s.index + n) % |p|
  {
    if n == 0 {
      Modular.ModUnique(s.index, |p|, 0, s.index);
    } else {
      ClicksIndex(p, s, n - 1);
      Modular.SuccessorMod(s.index + n - 1, |p|);
    }
  }

  /**
   * Click number n (n >= 1) applies the entry n - 1 places after the starting
   * index, so from the initial index 0 it applies entry (n - 1) mod |p|: it
   * sets background, fog and ring colour from that entry and shows the bananas
   * and the sphere exactly as the entry says.
   */
  lemma NthClickApplies(p: seq<ThemeEntry>, s: ThemeState, n: nat)
    requires ValidPalette(p) && ValidIndex(p, s) && n >= 1
    ensures var e := AppliedAt(p, s.index, n - 1);
      Clicks(p, s, n).visual == ApplyTheme(Clicks(p, s, n - 1).visual, e) &&
      Clicks(p, s, n).visual.background == Some(e.backgroundColor) &&
      Clicks(p, s, n).visual.fogColor == e.fogColor &&
      Clicks(p, s, n).visual.shapeColor == e.shapeColor &&
      Clicks(p, s, n).visual.bananasVisible == e.showBananas &&
      (Clicks(p, s, n).visual.sphereVisible <==> ShowsSphere(e))
  {
    ClicksIndex(p, s, n - 1);
  }

  /** A full cycle of m = |p| clicks brings the index back to where it started. */
  lemma FullCycleRoundTrip(p: seq<ThemeEntry>, s: ThemeState, m: nat)
    requires ValidPalette(p) && ValidIndex(p, s) && m == |p|
    ensures Clicks(p, s, m).index == s.index
  {
    ClicksIndex(p, s, m);
    Modular.AddModulus(s.index, m);
  }

  /** Clicking a + b times is clicking a times and then b times. */
  lemma {:induction false} ClicksCompose(p: seq<ThemeEntry>, s: ThemeState, a: nat, b: nat)
    requires ValidPalette(p) && ValidIndex(p, s)
    ensures Clicks(p, s, a + b) == Clicks(p, Clicks(p, s, a), b)
  {
    if b > 0 {
      ClicksCompose(p, s, a, b - 1);
    }
  }

  /** A click that applies an entry showing the sphere forgets the previous visual state. */
  lemma ClickForgets(p: seq<ThemeEntry>, q1: ThemeState, q2: ThemeState)
    requires ValidPalette(p) && forall i :: 0 <= i < |p| ==> Overwrites(p[i])
    requires ValidIndex(p, q1) && q2.index == q1.index && ShowsSphere(p[q1.index])
    ensures Click(p, q1) == Click(p, q2)
  {
    ApplyThemeForgets(q1.visual, q2.visual, p[q1.index]);
  }

  /**
   * Two runs of clicks from the same index, whatever their visual states,
   * are identical once an entry that shows the sphere (click k + 1 <= n) has
   * been applied: every later entry rewrites all the rest.
   */
  lemma {:induction false} ClicksConverge(p: seq<ThemeEntry>, s1: ThemeState, s2: ThemeState, n: nat, k: nat)
    requires ValidPalette(p) && forall i :: 0 <= i < |p| ==> Overwrites(p[i])
    requires ValidIndex(p, s1) && ValidIndex(p, s2) && s1.index == s2.index
    requires k < n && ShowsSphere(AppliedAt(p, s1.index, k))
    ensures Clicks(p, s1, n) == Clicks(p, s2, n)
  {
    var q1, q2 := Clicks(p, s1, n - 1), Clicks(p, s2, n - 1);
    if k < n - 1 {
      ClicksConverge(p, s1, s2, n - 1, k);
    } else {
      ClicksIndex(p, s1, n - 1);
      ClicksIndex(p, s2, n - 1);
      ClickForgets(p, q1, q2);
    }
  }

  /**
   * When every entry rewrites the map and some entry shows the sphere, a full
   * cycle of m = |p| clicks overwrites the whole visual state: afterwards only
   * the index matters.
   */
  lemma FullCycleForgetsHistory(p: seq<ThemeEntry>, s1: ThemeState, s2: ThemeState, m: nat, j: nat)
    requires ValidPalette(p) && forall i :: 0 <= i < |p| ==> Overwrites(p[i])
    requires j < |p| && ShowsSphere(p[j]) && m == |p|
    requires ValidIndex(p, s1) && ValidIndex(p, s2) && s1.index == s2.index
    ensures Clicks(p, s1, m) == Clicks(p, s2, m)
  {
    var k: nat;
    if j >= s1.index {
      k := j - s1.index;
      Modular.ModUnique(s1.index + k, m, 0, j);
    } else {
      k := j - s1.index + m;
      Modular.AddModulus(j, m);
    }
    assert AppliedAt(p, s1.index, k) == p[j];
    ClicksConverge(p, s1, s2, m, k);
  }

  /** From the first full cycle on, the whole state repeats every m = |p| clicks. */
  lemma ClicksPeriodic(p: seq<ThemeEntry>, s: ThemeState, n: nat, m: nat, j: nat)
    requires ValidPalette(p) && forall i :: 0 <= i < |p| ==> Overwrites(p[i])
    requires j < |p| && ShowsSphere(p[j]) && m == |p|
    requires ValidIndex(p, s) && n >= m
    ensures Clicks(p, s, n + m) == Clicks(p, s, n)
  {
    var t := Clicks(p, s, n - m);
    ClicksCompose(p, s, n - m, m);
    ClicksCompose(p, s, n, m);
    FullCycleRoundTrip(p, t, m);
    FullCycleForgetsHistory(p, Clicks(p, t, m), t, m, j);
  }

  /**
   * For the source's palette (m = |Palette| = 4): a full cycle returns the
   * index, and from the fourth click on the whole visual state repeats every
   * four clicks.
   */
  lemma PaletteCycle(s: ThemeState, n: nat, m: nat)
    requires m == |Palette| && ValidIndex(Palette, s) && n >= m
    ensures ValidPalette(Palette) && m == 4
    ensures Clicks(Palette, s, m).index == s.index
    ensures Clicks(Palette, s, n + m) == Clicks(Palette, s, n)
  {
    PaletteFacts();
    FullCycleRoundTrip(Palette, s, m);
    ClicksPeriodic(Palette, s, n, m, 1);
  }
}
