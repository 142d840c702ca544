/**
 * js/scenes/AlbumScene.js: the gallery of level CGs. A level's CG is shown
 * once its stars reach the level's requirement; thirty levels are laid out
 * on two pages of fifteen, five to a row.
 */
module Album {

  import opened Wrappers
  import opened StoryMap

  const ItemsPerPage: int := 15
  const TotalPages: int := 2
  const Columns: int := 5
  const LevelCount: int := 30

  /** Every fifth level asks for three stars, the others for two. */
  function RequiredStars(levelId: int): (r: int)
    ensures r == 2 || r == 3
    ensures r == 3 <==> levelId % 5 == 0
  {
    if levelId % 5 == 0 then 3 else 2
  }

  /**
   * createThumbnailButton's unlock rule: a missing entry counts as no stars,
   * and a missing or NaN `stars` field never compares as large enough.
   */
  predicate IsCgUnlocked(p: Progress, levelId: int)
  {
    var progress := if levelId in p then p[levelId] else Entry(Count(0), false);
    AtLeast(progress.stars, RequiredStars(levelId))
  }

  /** The rule in full: an entry with a numeric star count of at least the requirement. */
  lemma CgUnlockedIff(p: Progress, levelId: int)
    ensures IsCgUnlocked(p, levelId) <==>
              levelId in p && p[levelId].stars.Count? && p[levelId].stars.n >= RequiredStars(levelId)
  {
  }

  /** Raising a level's star count never locks its CG again. */
  lemma MoreStarsKeepCg(p: Progress, levelId: int, e: Entry)
    requires IsCgUnlocked(p, levelId)
    requires e.stars.Count? && e.stars.n >= p[levelId].stars.n
    ensures IsCgUnlocked(p[levelId := e], levelId)
  {
  }

  /** Completing a level on the story map with enough stars unlocks its CG. */
  lemma CompletionUnlocksCg(p: Progress, c: int, earned: int)
    requires 1 <= c <= LastLevel && earned >= RequiredStars(c)
    ensures IsCgUnlocked(CompleteLevel(p, c, earned).0, c)
  {
    CompleteLevelEffect(p, c, earned);
  }

  /** The first level index (from 0) and one past the last on a page. */
  function PageStart(page: int): int
  {
    page * ItemsPerPage
  }

  function PageEnd(page: int): int
  {
    if PageStart(page) + ItemsPerPage <= LevelCount then PageStart(page) + ItemsPerPage else LevelCount
  }

  /** The level ids shown on a page. */
  function PageLevels(page: int): (r: seq<int>)
    ensures |r| == if PageEnd(page) > PageStart(page) then PageEnd(page) - PageStart(page) else 0
    ensures forall k :: 0 <= k < |r| ==> r[k] == PageStart(page) + k + 1
  {
    var n := if PageEnd(page) > PageStart(page) then PageEnd(page) - PageStart(page) else 0;
    seq(n, k requires 0 <= k < n => PageStart(page) + k + 1)
  }

  /** Page 0 shows levels 1..15, page 1 shows 16..30: every level on exactly one page. */
  lemma PagesPartition(levelId: int)
    requires 1 <= levelId <= LevelCount
    ensures levelId in PageLevels(0) <==> levelId <= 15
    ensures levelId in PageLevels(1) <==> levelId > 15
  {
    var p0 := PageLevels(0);
    var p1 := PageLevels(1);
    if levelId <= 15 {
      assert p0[levelId - 1] == levelId;
    } else {
      assert p1[levelId - 16] == levelId;
    }
  }

  /** Both pages are full. */
  lemma PagesSizes()
    ensures |PageLevels(0)| == ItemsPerPage && |PageLevels(1)| == ItemsPerPage
    ensures forall page :: page >= TotalPages ==> |PageLevels(page)| == 0
  {
  }

  /** A screen position. */
  datatype Point = Point(x: int, y: int)

  /** Slot k of a page: column k % 5, row k div 5, spaced by thumbnail size plus padding. */
  function SlotPosition(k: nat): (r: Point)
    ensures r.x == 240 + (240 + 70) * (k % Columns)
    ensures r.y == 200 + (135 + 50) * (k / Columns)
  {
    Point(240 + 310 * (k % Columns), 200 + 185 * (k / Columns))
  }

  /** Different slots of a page never share a position, and a page fits a 5 x 3 grid. */
  lemma SlotsDistinct(k1: nat, k2: nat)
    requires k1 < ItemsPerPage && k2 < ItemsPerPage && k1 != k2
    ensures SlotPosition(k1) != SlotPosition(k2)
    ensures 240 <= SlotPosition(k1).x <= 240 + 310 * 4 && 200 <= SlotPosition(k1).y <= 200 + 185 * 2
  {
    assert k1 == Columns * (k1 / Columns) + k1 % Columns;
    assert k2 == Columns * (k2 / Columns) + k2 % Columns;
  }

  /** A thumbnail button as the scene records it. */
  datatype Thumb = Thumb(levelId: int, position: Point, isUnlocked: bool)

  /** The buttons createThumbnailGrid builds for a page, in order. */
  function PageThumbs(p: Progress, page: int): (r: seq<Thumb>)
    ensures |r| == |PageLevels(page)|
    ensures forall k :: 0 <= k < |r| ==>
              r[k] == Thumb(PageLevels(page)[k], SlotPosition(k), IsCgUnlocked(p, PageLevels(page)[k]))
  {
    var levels := PageLevels(page);
    seq(|levels|, k requires 0 <= k < |levels| => Thumb(levels[k], SlotPosition(k), IsCgUnlocked(p, levels[k])))
  }

  /** A page's buttons show its levels, each locked or unlocked by the rule, at distinct positions. */
  lemma PageThumbsShowPage(p: Progress, page: int, levelId: int)
    requires 0 <= page < TotalPages
    requires PageStart(page) < levelId <= PageEnd(page)
    ensures exists k :: 0 <= k < |PageThumbs(p, page)| &&
              PageThumbs(p, page)[k].levelId == levelId &&
              (PageThumbs(p, page)[k].isUnlocked <==> IsCgUnlocked(p, levelId))
  {
    var k := levelId - PageStart(page) - 1;
    assert PageThumbs(p, page)[k].levelId == levelId;
  }

  class AlbumScene {
    var playerProgress: Progress
    var thumbnailButtons: seq<Thumb>
    var currentPage: int

    constructor ()
      ensures playerProgress == map[] && thumbnailButtons == [] && currentPage == 0
    {
      playerProgress := map[];
      thumbnailButtons := [];
      currentPage := 0;
    }

    /** init(data): `data.playerProgress || {}`. */
    method Init(progress: Option<Progress>)
      modifies this
      ensures playerProgress == progress.GetOr(map[])
      ensures thumbnailButtons == old(thumbnailButtons) && currentPage == old(currentPage)
    {
      playerProgress := progress.GetOr(map[]);
    }

    /** createThumbnailGrid: the old buttons are dropped and the current page's are built. */
    method CreateThumbnailGrid()
      modifies this
      ensures thumbnailButtons == PageThumbs(playerProgress, currentPage)
      ensures playerProgress == old(playerProgress) && currentPage == old(currentPage)
    {
      thumbnailButtons := [];
      var startIdx := currentPage * ItemsPerPage;
      var endIdx := if startIdx + ItemsPerPage <= LevelCount then startIdx + ItemsPerPage else LevelCount;
      ghost var expected := PageThumbs(playerProgress, currentPage);
      var i := startIdx;
      while i < endIdx
        invariant startIdx <= i <= startIdx + |expected|
        invariant |expected| == if endIdx > startIdx then endIdx - startIdx else 0
        invariant thumbnailButtons == expected[..i - startIdx]
        invariant playerProgress == old(playerProgress) && currentPage == old(currentPage)
      {
        var levelId := i + 1;
        var col := (i - startIdx) % Columns;
        var row := (i - startIdx) / Columns;
        var x := 240 + col * (240 + 70);
        var y := 200 + row * (135 + 50);
        thumbnailButtons := thumbnailButtons + [Thumb(levelId, Point(x, y), IsCgUnlocked(playerProgress, levelId))];
        i := i + 1;
      }
      assert thumbnailButtons == expected;
    }

    /** prevPage: one page back and the grid rebuilt, or nothing on the first page. */
    method PrevPage()
      modifies this
      ensures currentPage == if old(currentPage) > 0 then old(currentPage) - 1 else old(currentPage)
      ensures old(currentPage) > 0 ==> thumbnailButtons == PageThumbs(playerProgress, currentPage)
      ensures old(currentPage) <= 0 ==> thumbnailButtons == old(thumbnailButtons)
      ensures playerProgress == old(playerProgress)
      ensures 0 <= old(currentPage) < TotalPages ==> 0 <= currentPage < TotalPages
    {
      if currentPage > 0 {
        currentPage := currentPage - 1;
        CreateThumbnailGrid();
      }
    }

    /** nextPage: one page on and the grid rebuilt, or nothing on the last page. */
    method NextPage()
      modifies this
      ensures currentPage == if old(currentPage) < TotalPages - 1 then old(currentPage) + 1 else old(currentPage)
      ensures old(currentPage) < TotalPages - 1 ==> thumbnailButtons == PageThumbs(playerProgress, currentPage)
      ensures old(currentPage) >= TotalPages - 1 ==> thumbnailButtons == old(thumbnailButtons)
      ensures playerProgress == old(playerProgress)
      ensures 0 <= old(currentPage) < TotalPages ==> 0 <= currentPage < TotalPages
    {
      if currentPage < TotalPages - 1 {
        currentPage := currentPage + 1;
        CreateThumbnailGrid();
      }
    }
  }
}
