/**
 * js/scenes/StoryMapScene.js: the chain of thirty level nodes and the
 * player's progress map (stars and unlocked flag per level). Progress is
 * read from and written to local storage, which enters as a parameter
 * (`saved`) and a field recording the last write (`stored`).
 */
module StoryMap {

  import opened Wrappers

  /** A level node: its id and the id of the level it leads to (null for the last). */
  datatype Node = Node(id: int, nextLevel: Option<int>)

  const LastLevel: int := 30

  /**
   * levelNodesData's `id` and `nextLevel` columns: node k (from 1) has id k,
   * and leads to k + 1 except node 30, which leads nowhere.
   */
  function Nodes(): seq<Node> { seq(LastLevel, i => NodeAt(i)) }

  function NodeAt(i: int): Node
  {
    Node(i + 1, if i + 1 < LastLevel then Some(i + 2) else None)
  }

  /** The node table is a chain 1 -> 2 -> ... -> 30. */
  lemma NodesChain()
    ensures |Nodes()| == LastLevel
    ensures forall i :: 0 <= i < |Nodes()| ==> Nodes()[i].id == i + 1
    ensures forall i :: 0 <= i < |Nodes()| ==> Nodes()[i].nextLevel == if i + 1 < LastLevel then Some(i + 2) else None
  {
  }

  /** `levelNodesData.find(node => node.id === id)` over a suffix of the table. */
  function FindById(ns: seq<Node>, id: int): (r: Option<Node>)
    ensures r.Some? ==> r.value in ns && r.value.id == id
    ensures r.None? ==> forall i :: 0 <= i < |ns| ==> ns[i].id != id
    decreases |ns|
  {
    if |ns| == 0 then None else if ns[0].id == id then Some(ns[0]) else FindById(ns[1..], id)
  }

  /** `levelNodesData.find(node => node.nextLevel === target)` over a suffix of the table. */
  function FindByNext(ns: seq<Node>, target: int): (r: Option<Node>)
    ensures r.Some? ==> r.value in ns && r.value.nextLevel == Some(target)
    ensures r.None? ==> forall i :: 0 <= i < |ns| ==> ns[i].nextLevel != Some(target)
    decreases |ns|
  {
    if |ns| == 0 then None else if ns[0].nextLevel == Some(target) then Some(ns[0]) else FindByNext(ns[1..], target)
  }

  function FindNode(id: int): Option<Node>
  {
    FindById(Nodes(), id)
  }

  /** findPreviousNodeId(target). */
  function FindPreviousNodeId(target: int): Option<int>
  {
    match FindByNext(Nodes(), target)
    case Some(n) => Some(n.id)
    case None => None
  }

  /** Looking a level up by id finds node `id` exactly for 1..30. */
  lemma FindNodeExact(id: int)
    ensures FindNode(id) == if 1 <= id <= LastLevel then Some(Nodes()[id - 1]) else None
  {
    NodesChain();
    if 1 <= id <= LastLevel {
      FindByIdFrom(0, id);
    }
  }

  lemma {:induction false} FindByIdFrom(k: nat, id: int)
    requires k < id <= LastLevel
    ensures FindById(Nodes()[k..], id) == Some(Nodes()[id - 1])
    decreases id - k
  {
    NodesChain();
    if Nodes()[k..][0].id != id {
      assert Nodes()[k..][1..] == Nodes()[k + 1..];
      FindByIdFrom(k + 1, id);
    }
  }

  /** The previous node of 2..30 is the level before it; level 1 (and any other value) has none. */
  lemma PreviousNodeExact(target: int)
    ensures FindPreviousNodeId(target) == if 2 <= target <= LastLevel then Some(target - 1) else None
  {
    NodesChain();
    if 2 <= target <= LastLevel {
      FindByNextFrom(0, target);
    }
  }

  lemma {:induction false} FindByNextFrom(k: nat, target: int)
    requires k + 1 < target <= LastLevel
    ensures FindByNext(Nodes()[k..], target) == Some(Nodes()[target - 2])
    decreases target - k
  {
    NodesChain();
    if Nodes()[k..][0].nextLevel != Some(target) {
      assert Nodes()[k..][1..] == Nodes()[k + 1..];
      FindByNextFrom(k + 1, target);
    }
  }

  /** A `stars` field: missing, NaN, or a number. */
  datatype Stars = Missing | NaN | Count(n: int)

  /** A progress entry; a missing `unlocked` field reads as false. */
  datatype Entry = Entry(stars: Stars, unlocked: bool)

  type Progress = map<int, Entry>

  /** `stars || 0`. */
  function StarsOr0(s: Stars): int
  {
    if s.Count? then s.n else 0
  }

  /** `Math.max(stars, earned)`: NaN as soon as the stored value is not a number. */
  function MaxStars(s: Stars, earned: int): (r: Stars)
    ensures s.Count? ==> r == Count(if s.n >= earned then s.n else earned)
    ensures !s.Count? ==> r == NaN
  {
    match s
    case Count(n) => Count(if n >= earned then n else earned)
    case _ => NaN
  }

  /** `stars >= required` (false for a missing or NaN value). */
  predicate AtLeast(s: Stars, required: int)
  {
    s.Count? && s.n >= required
  }

  /** With no saved progress only level 1 is known, unlocked and without stars. */
  function DefaultProgress(): (p: Progress)
    ensures p.Keys == {1} && p[1] == Entry(Count(0), true)
  {
    map[1 := Entry(Count(0), true)]
  }

  /**
   * The completion update of `init` for level c with `starsEarned || 0`
   * already applied: the new progress and the level the avatar moves to
   * (`None` when c is not a node and the current level is kept).
   */
  function CompleteLevel(p: Progress, c: int, earned: int): (r: (Progress, Option<int>))
  {
    var before := if c in p then p[c] else Entry(Count(0), true);
    var p1 := p[c := Entry(Count(if StarsOr0(before.stars) >= earned then StarsOr0(before.stars) else earned), true)];
    match FindNode(c)
    case None => (p1, None)
    case Some(node) =>
      if node.nextLevel.Some? && FindNode(node.nextLevel.value).Some? then
        var next := node.nextLevel.value;
        var entry := if next in p1 then p1[next] else Entry(Count(0), false);
        (p1[next := entry.(unlocked := true)], Some(next))
      else (p1, Some(c))
  }

  /**
   * Completing level c keeps the larger of the old and earned stars, unlocks
   * c, unlocks c + 1 and moves there (level 30 stays put), and touches no other
   * entry.
   */
  lemma CompleteLevelEffect(p: Progress, c: int, earned: int)
    requires 1 <= c <= LastLevel
    ensures var (q, cur) := CompleteLevel(p, c, earned);
            c in q && q[c].unlocked && q[c].stars.Count? &&
            q[c].stars.n >= earned && (c in p && p[c].stars.Count? ==> q[c].stars.n >= p[c].stars.n) &&
            (q[c].stars.n == earned || (c in p && q[c].stars == p[c].stars) || (q[c].stars.n == 0 && earned <= 0)) &&
            (c < LastLevel ==> c + 1 in q && q[c + 1].unlocked && cur == Some(c + 1)) &&
            (c == LastLevel ==> cur == Some(c)) &&
            (forall k :: k != c && k != c + 1 ==> (k in q <==> k in p) && (k in p ==> q[k] == p[k])) &&
            (c < LastLevel && c + 1 in p ==> q[c + 1].stars == p[c + 1].stars)
  {
    FindNodeExact(c);
    NodesChain();
    if c < LastLevel {
      FindNodeExact(c + 1);
    }
  }

  /**
   * levelWon as written: the next level's entry is created as an empty
   * object, which has no `stars` field.
   */
  function WonProgressAsWritten(p: Progress, levelId: int, earned: int): Progress
  {
    var before := if levelId in p then p[levelId] else Entry(Count(0), true);
    var p1 := p[levelId := before.(stars := MaxStars(before.stars, earned))];
    match FindNode(levelId)
    case Some(node) =>
      if node.nextLevel.Some? then
        var next := node.nextLevel.value;
        var entry := if next in p1 then p1[next] else Entry(Missing, false);
        p1[next := entry.(unlocked := true)]
      else p1
    case None => p1
  }

  /**
   * Winning level 1 and then level 2 through levelWon leaves level 2 with
   * NaN stars: the entry created for it had none, and `Math.max(undefined, 3)`
   * is NaN.
   */
  lemma LevelWonLosesStars()
    ensures var p := WonProgressAsWritten(WonProgressAsWritten(DefaultProgress(), 1, 2), 2, 3);
            2 in p && p[2].stars == NaN && !AtLeast(p[2].stars, 2)
  {
    FindNodeExact(1);
    FindNodeExact(2);
    NodesChain();
  }

  /** levelWon with the next level's entry created as `{stars: 0, unlocked: false}`, as `init` does. */
  function WonProgress(p: Progress, levelId: int, earned: int): Progress
  {
    var before := if levelId in p then p[levelId] else Entry(Count(0), true);
    var p1 := p[levelId := before.(stars := MaxStars(before.stars, earned))];
    match FindNode(levelId)
    case Some(node) =>
      if node.nextLevel.Some? then
        var next := node.nextLevel.value;
        var entry := if next in p1 then p1[next] else Entry(Count(0), false);
        p1[next := entry.(unlocked := true)]
      else p1
    case None => p1
  }

  /** Every entry's stars are a number. */
  predicate NumericStars(p: Progress)
  {
    forall k :: k in p ==> p[k].stars.Count?
  }

  /**
   * levelWon keeps stars numeric and never lowers them, keeps the won level's
   * own unlocked flag when it had an entry, unlocks the next level, and
   * touches nothing else.
   */
  lemma LevelWonEffect(p: Progress, levelId: int, earned: int)
    requires NumericStars(p)
    ensures var q := WonProgress(p, levelId, earned);
            NumericStars(q) && levelId in q &&
            q[levelId].stars.n >= earned &&
            (levelId in p ==> q[levelId].stars.n >= p[levelId].stars.n && q[levelId].unlocked == p[levelId].unlocked) &&
            (levelId !in p ==> q[levelId].unlocked) &&
            (1 <= levelId < LastLevel ==> levelId + 1 in q && q[levelId + 1].unlocked) &&
            (forall k :: k != levelId && k != levelId + 1 ==> (k in q <==> k in p) && (k in p ==> q[k] == p[k]))
  {
    var before := if levelId in p then p[levelId] else Entry(Count(0), true);
    var p1 := p[levelId := before.(stars := MaxStars(before.stars, earned))];
    assert NumericStars(p1);
    WonProgressShape(p, levelId, earned);
  }

  /** Where the next level's entry goes: only levels 1..29 have a next level. */
  lemma WonProgressShape(p: Progress, levelId: int, earned: int)
    ensures var before := if levelId in p then p[levelId] else Entry(Count(0), true);
            var p1 := p[levelId := before.(stars := MaxStars(before.stars, earned))];
            WonProgress(p, levelId, earned) ==
              if 1 <= levelId < LastLevel then
                p1[levelId + 1 := (if levelId + 1 in p1 then p1[levelId + 1] else Entry(Count(0), false)).(unlocked := true)]
              else p1
  {
    FindNodeExact(levelId);
    NodesChain();
  }

  /** The two definitions differ only in the next level's new entry: where it existed, they agree. */
  lemma LevelWonAgreesOnExistingEntries(p: Progress, levelId: int, earned: int)
    requires 1 <= levelId < LastLevel && levelId + 1 in p
    ensures WonProgressAsWritten(p, levelId, earned) == WonProgress(p, levelId, earned)
  {
  }

  /** Whether a level's entry is unlocked; a missing entry is not. */
  predicate Unlocked(p: Progress, id: int)
  {
    id in p && p[id].unlocked
  }

  /** The largest unlocked node id among the first k nodes, and at least 1. */
  function CandidateUpTo(p: Progress, k: nat): (r: int)
    requires k <= |Nodes()|
    ensures r >= 1
    ensures r == 1 || exists i :: 0 <= i < k && Nodes()[i].id == r && Unlocked(p, r)
    ensures forall i :: 0 <= i < k && Unlocked(p, Nodes()[i].id) ==> Nodes()[i].id <= r
  {
    if k == 0 then 1
    else
      var prev := CandidateUpTo(p, k - 1);
      var id := Nodes()[k - 1].id;
      if Unlocked(p, id) && id > prev then id else prev
  }

  /** The largest unlocked node id with stars among the first k nodes, or 0. */
  function MaxStarredUpTo(p: Progress, k: nat): (r: int)
    requires k <= |Nodes()|
    ensures r >= 0
    ensures r == 0 || exists i :: 0 <= i < k && Nodes()[i].id == r && Unlocked(p, r) && AtLeast(p[r].stars, 1)
    ensures forall i :: 0 <= i < k && Unlocked(p, Nodes()[i].id) && AtLeast(p[Nodes()[i].id].stars, 1) ==> Nodes()[i].id <= r
  {
    if k == 0 then 0
    else
      var prev := MaxStarredUpTo(p, k - 1);
      var id := Nodes()[k - 1].id;
      if Unlocked(p, id) && AtLeast(p[id].stars, 1) && id > prev then id else prev
  }

  /** The current level loadPlayerProgress settles on. */
  function LoadedLevel(p: Progress): int
  {
    if |p.Keys| == 0 then 1
    else
      var starred := MaxStarredUpTo(p, |Nodes()|);
      match FindNode(starred)
      case Some(node) =>
        if node.nextLevel.Some? && Unlocked(p, node.nextLevel.value) then node.nextLevel.value
        else CandidateUpTo(p, |Nodes()|)
      case None => CandidateUpTo(p, |Nodes()|)
  }

  /** Fresh progress starts the avatar on level 1. */
  lemma LoadedLevelDefault()
    ensures LoadedLevel(DefaultProgress()) == 1
  {
    LoadedLevelOnlyFirst(DefaultProgress());
  }

  /** Progress that knows only level 1, without stars, starts the avatar on level 1. */
  lemma LoadedLevelOnlyFirst(p: Progress)
    requires p.Keys == {1} && !AtLeast(p[1].stars, 1)
    ensures LoadedLevel(p) == 1
  {
    assert 1 in p.Keys;
    assert |p.Keys| != 0;
    var starred := MaxStarredUpTo(p, |Nodes()|);
    assert starred == 0;
    FindNodeExact(0);
    var c := CandidateUpTo(p, |Nodes()|);
    assert c == 1;
  }

  /** The loaded level is an unlocked level 1..30, or 1. */
  lemma LoadedLevelUnlocked(p: Progress)
    ensures var l := LoadedLevel(p); 1 <= l <= LastLevel && (l == 1 || Unlocked(p, l))
  {
    NodesChain();
    var starred := MaxStarredUpTo(p, |Nodes()|);
    FindNodeExact(starred);
    var c := CandidateUpTo(p, |Nodes()|);
    if c != 1 {
      var i :| 0 <= i < |Nodes()| && Nodes()[i].id == c && Unlocked(p, c);
    }
  }

  /** `h` is the highest unlocked key, or 0 when none is positive. */
  predicate IsHighestUnlocked(p: Progress, h: int)
  {
    h >= 0 && (h == 0 || Unlocked(p, h)) && forall k :: k in p && p[k].unlocked ==> k <= h
  }

  /** The current level init picks without a completed level, from the highest unlocked key h. */
  function ResumeLevel(p: Progress, h: int): int
  {
    if h > 0 then
      match FindNode(h)
      case Some(node) =>
        if node.nextLevel.Some? && !Unlocked(p, node.nextLevel.value) then node.nextLevel.value else h
      case None => h
    else 1
  }

  /** Resuming moves to the first locked level after the highest unlocked one, if there is one. */
  lemma ResumeLevelNext(p: Progress, h: int)
    requires IsHighestUnlocked(p, h) && 1 <= h < LastLevel
    ensures ResumeLevel(p, h) == h + 1
  {
    FindNodeExact(h);
    NodesChain();
  }

  /**
   * The node loop of loadPlayerProgress: the highest unlocked node (at least
   * 1) and the highest unlocked node with stars (0 when there is none).
   */
  method ScanNodes(p: Progress) returns (candidate: int, maxStarred: int)
    ensures candidate == CandidateUpTo(p, |Nodes()|)
    ensures maxStarred == MaxStarredUpTo(p, |Nodes()|)
  {
    var nodes := Nodes();
    candidate := 1;
    maxStarred := 0;
    var i := 0;
    while i < |nodes|
      invariant 0 <= i <= |nodes|
      invariant candidate == CandidateUpTo(p, i)
      invariant maxStarred == MaxStarredUpTo(p, i)
    {
      var id := nodes[i].id;
      ghost var nextCandidate := if Unlocked(p, id) && id > candidate then id else candidate;
      ghost var nextStarred := if Unlocked(p, id) && AtLeast(p[id].stars, 1) && id > maxStarred then id else maxStarred;
      assert CandidateUpTo(p, i + 1) == nextCandidate && MaxStarredUpTo(p, i + 1) == nextStarred;
      if id in p && p[id].unlocked {
        candidate := if candidate >= id then candidate else id;
        if p[id].stars.Count? && p[id].stars.n > 0 {
          maxStarred := if maxStarred >= id then maxStarred else id;
        }
      }
      i := i + 1;
    }
  }

  /** The level loadPlayerProgress places the avatar on, from the two results of the node loop. */
  method StartLevel(progress: Progress) returns (level: int)
    ensures level == LoadedLevel(progress)
  {
    if |progress.Keys| == 0 {
      return 1;
    }
    var candidate, maxStarred := ScanNodes(progress);
    var starredNode := FindNode(maxStarred);
    if starredNode.Some? && starredNode.value.nextLevel.Some? &&
       starredNode.value.nextLevel.value in progress && progress[starredNode.value.nextLevel.value].unlocked {
      level := starredNode.value.nextLevel.value;
    } else {
      level := candidate;
    }
  }

  /**
   * The progress updates of init's completion branch: the completed level's
   * stars and unlock, then the next node unlocked; also the level the avatar
   * moves to, `None` when c is not a node.
   */
  method CompletedProgress(p: Progress, c: int, earned: int) returns (q: Progress, moveTo: Option<int>)
    ensures (q, moveTo) == CompleteLevel(p, c, earned)
  {
    var progress := if c in p then p[c] else Entry(Count(0), true);
    var before := StarsOr0(progress.stars);
    q := p[c := Entry(Count(if before >= earned then before else earned), true)];
    moveTo := None;
    var completedNode := FindNode(c);
    if completedNode.Some? && completedNode.value.nextLevel.Some? {
      var nextLevelNode := FindNode(completedNode.value.nextLevel.value);
      if nextLevelNode.Some? {
        var next := nextLevelNode.value.id;
        var entry := if next in q then q[next] else Entry(Count(0), false);
        q := q[next := entry.(unlocked := true)];
        moveTo := Some(next);
      } else {
        moveTo := Some(completedNode.value.id);
      }
    } else if completedNode.Some? {
      moveTo := Some(completedNode.value.id);
    }
  }

  /** The highest unlocked key of a progress map, 0 when there is none (the `for ... in` loop of init). */
  method HighestUnlocked(p: Progress) returns (h: int)
    ensures IsHighestUnlocked(p, h)
  {
    h := 0;
    var pending := p.Keys;
    while pending != {}
      invariant pending <= p.Keys
      invariant h >= 0 && (h == 0 || Unlocked(p, h))
      invariant forall k :: k in p && k !in pending && p[k].unlocked ==> k <= h
      decreases |pending|
    {
      if forall k :: k !in pending {
        assert false;
      }
      var k :| k in pending;
      if p[k].unlocked && k > h {
        h := k;
      }
      pending := pending - {k};
    }
  }

  class StoryMapScene {
    var playerProgress: Progress
    var currentLevel: int
    var stored: Option<Progress>

    constructor ()
      ensures playerProgress == map[] && currentLevel == 1 && stored.None?
    {
      playerProgress := map[];
      currentLevel := 1;
      stored := None;
    }

    /** loadPlayerProgress(saved): `saved` is the parsed local-storage value, `None` when there is none. */
    method LoadPlayerProgress(saved: Option<Progress>)
      modifies this
      ensures playerProgress == saved.GetOr(DefaultProgress())
      ensures currentLevel == LoadedLevel(playerProgress)
      ensures stored == old(stored)
    {
      var progress := saved.GetOr(DefaultProgress());
      var level := StartLevel(progress);
      playerProgress, currentLevel := progress, level;
    }

    /**
     * init(data): loads the saved progress, then applies a completed level
     * when `completedLevelId` is given, or else resumes from the highest
     * unlocked level; `starsEarned` is the raw field, `None` when absent.
     */
    method Init(completedLevelId: Option<int>, starsEarned: Option<int>, saved: Option<Progress>)
      modifies this
      ensures completedLevelId.Some? ==>
                var (p, cur) := CompleteLevel(saved.GetOr(DefaultProgress()), completedLevelId.value, starsEarned.GetOr(0));
                playerProgress == p && stored == Some(p) &&
                currentLevel == if cur.Some? then cur.value else LoadedLevel(saved.GetOr(DefaultProgress()))
      ensures completedLevelId.None? ==>
                var loaded := saved.GetOr(DefaultProgress());
                if |loaded.Keys| == 0 then playerProgress == DefaultProgress() && currentLevel == 1 && stored == Some(DefaultProgress())
                else playerProgress == loaded && stored == old(stored) &&
                     exists h :: IsHighestUnlocked(loaded, h) && currentLevel == ResumeLevel(loaded, h)
    {
      LoadPlayerProgress(saved);
      if completedLevelId.Some? {
        ApplyCompletedLevel(completedLevelId.value, starsEarned.GetOr(0));
      } else {
        ResumeHighestUnlocked();
      }
    }

    /** The completion half of init: `earned` is `data.starsEarned || 0`. */
    method ApplyCompletedLevel(c: int, earned: int)
      modifies this
      ensures var (p, cur) := CompleteLevel(old(playerProgress), c, earned);
              playerProgress == p && stored == Some(p) &&
              currentLevel == if cur.Some? then cur.value else old(currentLevel)
    {
      var progress, moveTo := CompletedProgress(playerProgress, c, earned);
      playerProgress := progress;
      if moveTo.Some? {
        currentLevel := moveTo.value;
      }
      stored := Some(playerProgress);
    }

    /** The resume half of init, without a completed level. */
    method ResumeHighestUnlocked()
      modifies this
      ensures |old(playerProgress).Keys| == 0 ==>
                playerProgress == DefaultProgress() && currentLevel == 1 && stored == Some(DefaultProgress())
      ensures |old(playerProgress).Keys| != 0 ==>
                playerProgress == old(playerProgress) && stored == old(stored) &&
                exists h :: IsHighestUnlocked(playerProgress, h) && currentLevel == ResumeLevel(playerProgress, h)
    {
      currentLevel := 1;
      var h := HighestUnlocked(playerProgress);
      if h > 0 {
        var lastUnlockedNode := FindNode(h);
        if lastUnlockedNode.Some? && lastUnlockedNode.value.nextLevel.Some? &&
           !(lastUnlockedNode.value.nextLevel.value in playerProgress &&
             playerProgress[lastUnlockedNode.value.nextLevel.value].unlocked) {
          currentLevel := lastUnlockedNode.value.nextLevel.value;
        } else {
          currentLevel := h;
        }
      }
      assert currentLevel == ResumeLevel(playerProgress, h);
      if |playerProgress.Keys| == 0 {
        playerProgress := map[1 := Entry(Count(0), true)];
        currentLevel := 1;
        stored := Some(playerProgress);
      }
    }

    /** levelWon(levelId, starsEarned), with the next level's new entry as `init` creates it. */
    method LevelWon(levelId: int, starsEarned: int)
      modifies this
      ensures playerProgress == WonProgress(old(playerProgress), levelId, starsEarned)
      ensures stored == Some(playerProgress) && currentLevel == old(currentLevel)
    {
      var progress := if levelId in playerProgress then playerProgress[levelId] else Entry(Count(0), true);
      playerProgress := playerProgress[levelId := progress.(stars := MaxStars(progress.stars, starsEarned))];
      var currentNode := FindNode(levelId);
      if currentNode.Some? && currentNode.value.nextLevel.Some? {
        var next := currentNode.value.nextLevel.value;
        var entry := if next in playerProgress then playerProgress[next] else Entry(Count(0), false);
        playerProgress := playerProgress[next := entry.(unlocked := true)];
      }
      stored := Some(playerProgress);
    }
  }
}
