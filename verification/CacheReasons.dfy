/** What `why` decides: exactly when a recorded verdict is kept, and what each reason not to tells. */
module CacheReasons {
  import opened Prelude
  import opened Seeding
  import opened VerdictCache

  /** The file is as the commit has it, tracked still if it's there. */
  predicate Unchanged(then_: Tree, now: Checkout, p: Path) {
    Held(now.files, p) == Held(then_, p) && (p in then_ && p in now.files ==> p in now.index)
  }

  lemma ChangedIff(then_: Tree, now: Checkout, p: Path)
    ensures p in Changed(then_, now) <==> !Unchanged(then_, now, p)
  {
  }

  predicate IsListed(now: Checkout, p: Path) {
    p in Listed(now) || InDirs(Listed(now), p)
  }

  /** The tree has, as far as git's lists tell, all that a closure rests on. */
  ghost predicate TreeHolds(parse: string -> map<string, string>, cl: Closure, then_: Tree, now: Checkout) {
    && (forall p :: p in cl.content ==> Unchanged(then_, now, p))
    && (forall p :: p in cl.present ==> IsListed(now, p))
    && (forall p :: p in cl.absent ==> !IsListed(now, p))
    && (forall d :: d in cl.listed ==> Children(then_.Keys, d) == Children(Listed(now), d))
    && (cl.git == Some(TreeOnly) ==> Listed(now) == then_.Keys)
    && (forall k :: k in cl.locked ==>
                      Unchanged(then_, now, LOCK) || PackageIn(parse, then_, k) == PackageIn(parse, now.files, k))
  }

  /** A closure that was traced and read no history and no floating download, with the tools and the
      tree as they were. */
  ghost predicate StillHolds(parse: string -> map<string, string>, cl: Closure, r: Recorded, now: Present) {
    && cl.traced && cl.git != Some(FullHistory) && cl.floating == {}
    && (forall t :: t in cl.tools ==> Get(now.tools, t) == Get(r.tools, t))
    && TreeHolds(parse, cl, r.commit, now.checkout)
  }

  lemma TreeWhyIff(parse: string -> map<string, string>, cl: Closure, then_: Tree, now: Checkout)
    requires cl.git != Some(FullHistory)
    ensures TreeWhy(parse, cl, then_, now) == None <==> TreeHolds(parse, cl, then_, now)
  {
    forall p ensures p in Changed(then_, now) <==> !Unchanged(then_, now, p) {
      ChangedIff(then_, now, p);
    }
    var hit := cl.content * Changed(then_, now);
    assert forall p :: p in hit <==> p in cl.content && p in Changed(then_, now);
  }

  /** What holds of more holds of less. */
  lemma HoldsWithin(parse: string -> map<string, string>, part: Closure, all: Closure, then_: Tree, now: Checkout)
    requires part.content <= all.content && part.present <= all.present && part.absent <= all.absent
    requires part.listed <= all.listed && part.locked <= all.locked
    requires part.git == Some(TreeOnly) ==> all.git == Some(TreeOnly)
    requires TreeHolds(parse, all, then_, now)
    ensures TreeHolds(parse, part, then_, now)
  {
  }

  lemma UnionTreeHolds(parse: string -> map<string, string>, a: Closure, b: Closure, then_: Tree, now: Checkout)
    requires a.git != Some(FullHistory) && b.git != Some(FullHistory)
    ensures TreeHolds(parse, a.Union(b), then_, now) <==>
            TreeHolds(parse, a, then_, now) && TreeHolds(parse, b, then_, now)
  {
    if TreeHolds(parse, a.Union(b), then_, now) {
      assert (a.git.Some? ==> a.git.value.TreeOnly?) && (b.git.Some? ==> b.git.value.TreeOnly?);
      HoldsWithin(parse, a, a.Union(b), then_, now);
      HoldsWithin(parse, b, a.Union(b), then_, now);
    } else if TreeHolds(parse, a, then_, now) && TreeHolds(parse, b, then_, now) {
      HoldsBoth(parse, a, b, then_, now);
    }
  }

  lemma HoldsBoth(parse: string -> map<string, string>, a: Closure, b: Closure, then_: Tree, now: Checkout)
    requires a.git != Some(FullHistory) && b.git != Some(FullHistory)
    requires TreeHolds(parse, a, then_, now) && TreeHolds(parse, b, then_, now)
    ensures TreeHolds(parse, a.Union(b), then_, now)
  {
  }

  lemma UnionHolds(parse: string -> map<string, string>, a: Closure, b: Closure, r: Recorded, now: Present)
    ensures StillHolds(parse, a.Union(b), r, now) <==> StillHolds(parse, a, r, now) && StillHolds(parse, b, r, now)
  {
    if a.git != Some(FullHistory) && b.git != Some(FullHistory) {
      UnionTreeHolds(parse, a, b, r.commit, now.checkout);
    }
    assert a.Union(b).floating == {} <==> a.floating == {} && b.floating == {};
    assert forall t :: t in a.Union(b).tools <==> t in a.tools || t in b.tools;
  }

  /** A recorded verdict is kept if and only if the command may be traced, the record has a verdict
      for the entry and it is that it fired, the entry's table is the one recorded, the commit is
      known and the script unchanged since, the environment is the same, and both what the command's
      clean run rested on and what the entry's own did still hold. */
  lemma KeptIff(parse: string -> map<string, string>, untraced: bool, found: Option<Recorded>,
                id: string, table: string, now: Present)
    ensures Why(parse, untraced, found, id, table, now) == None <==>
            && !untraced && found.Some? && id in found.value.entries
            && found.value.entries[id].fired && found.value.entries[id].table == table
            && now.known && Unchanged(found.value.commit, now.checkout, THIS)
            && now.environment == found.value.environment
            && StillHolds(parse, found.value.clean, found.value, now)
            && StillHolds(parse, found.value.entries[id].closure, found.value, now)
  {
    if found.Some? && id in found.value.entries {
      var r := found.value;
      ChangedIff(r.commit, now.checkout, THIS);
      UnionHolds(parse, r.clean, r.entries[id].closure, r, now);
      KeptUnion(parse, untraced, r, id, table, now);
    }
  }

  lemma KeptUnion(parse: string -> map<string, string>, untraced: bool, r: Recorded, id: string, table: string,
                  now: Present)
    requires id in r.entries
    ensures Why(parse, untraced, Some(r), id, table, now) == None <==>
            && !untraced && r.entries[id].fired && r.entries[id].table == table
            && now.known && THIS !in Changed(r.commit, now.checkout) && now.environment == r.environment
            && StillHolds(parse, Used(r, id), r, now)
  {
    if Used(r, id).git != Some(FullHistory) {
      TreeWhyIff(parse, Used(r, id), r.commit, now.checkout);
    }
  }

  /** What a reason says of the record and the checkout. */
  ghost predicate Tells(parse: string -> map<string, string>, untraced: bool, found: Option<Recorded>,
                        id: string, table: string, now: Present, reason: Reason) {
    match reason
    case CannotTrace => untraced
    case NoRecord => found.None?
    case NoVerdict => found.Some? && id !in found.value.entries
    case _ => found.Some? && id in found.value.entries && EntryTells(parse, found.value, id, table, now, reason)
  }

  ghost predicate EntryTells(parse: string -> map<string, string>, r: Recorded, id: string, table: string,
                             now: Present, reason: Reason)
    requires id in r.entries
  {
    match reason
    case NotFired => !r.entries[id].fired
    case TableChanged => r.entries[id].table != table
    case CommitUnknown => !now.known
    case ScriptChanged => !Unchanged(r.commit, now.checkout, THIS)
    case EnvironmentMoved => now.environment != r.environment
    case NoTrace => !r.clean.traced || !r.entries[id].closure.traced
    case ReadsHistory => r.clean.git == Some(FullHistory) || r.entries[id].closure.git == Some(FullHistory)
    case DownloadsByRange => r.clean.floating + r.entries[id].closure.floating != {}
    case ToolDiffers => exists t :: t in Used(r, id).tools && Get(now.tools, t) != Get(r.tools, t)
    case TreeChanged(_) => TreeTells(parse, Used(r, id), r.commit, now.checkout, reason.what)
    case _ => false
  }

  ghost predicate TreeTells(parse: string -> map<string, string>, cl: Closure, then_: Tree, now: Checkout,
                            what: TreeReason) {
    match what
    case TextChanged => exists p :: p in cl.content && !Unchanged(then_, now, p)
    case PathGone => exists p :: p in cl.present && !IsListed(now, p)
    case PathNew => exists p :: p in cl.absent && IsListed(now, p)
    case EntriesMoved => exists d :: d in cl.listed && Children(then_.Keys, d) != Children(Listed(now), d)
    case TrackedMoved => cl.git == Some(TreeOnly) && Listed(now) != then_.Keys
    case LockMoved => exists k :: k in cl.locked && PackageIn(parse, then_, k) != PackageIn(parse, now.files, k)
  }

  lemma TreeWhyTells(parse: string -> map<string, string>, cl: Closure, then_: Tree, now: Checkout)
    ensures TreeWhy(parse, cl, then_, now).Some? ==>
              TreeTells(parse, cl, then_, now, TreeWhy(parse, cl, then_, now).value)
  {
    var hit := cl.content * Changed(then_, now);
    if hit != {} {
      var p :| p in hit;
      ChangedIff(then_, now, p);
      assert p in cl.content && !Unchanged(then_, now, p);
    }
  }

  /** Whatever reason is given is true. */
  lemma WhyTells(parse: string -> map<string, string>, untraced: bool, found: Option<Recorded>,
                 id: string, table: string, now: Present)
    ensures Why(parse, untraced, found, id, table, now).Some? ==>
              Tells(parse, untraced, found, id, table, now, Why(parse, untraced, found, id, table, now).value)
  {
    if found.Some? && id in found.value.entries {
      ChangedIff(found.value.commit, now.checkout, THIS);
      TreeWhyTells(parse, Used(found.value, id), found.value.commit, now.checkout);
    }
  }
}
