# zfs_rebase: a verified model

zfs_rebase merges three snapshots of a file system. A tree is a partition of path names into
objects (names hard-linked together are one object, here a *pool*), and every object has a content.
Given a base tree and two trees descended from it, *from* and *onto*, the program

1. decides which names survive, which of them share an object, what each object holds, and where the
   two sides cannot be reconciled;
2. compiles the decision into a list of `rm`, `ln`, `cp`, `dup`, `write` and `conflict` lines in path
   order, prints it as a scoped tree, and reads it back;
3. runs the list over a copy of onto, where `write` goes through a shared object and a removed
   directory waits until its scope is left; the run may be interrupted and started again;
4. carries the whole thing through holds, a record and a manifest that survive a crash.

This project models those four, and the tables and the tree editor under them, and proves what they
promise.

## How it is laid out

Each pass that fills arrays in place is a method over a `class` or an `array`, proved against a
specification on values; the laws are lemmas about that specification.

| layer | specification | the program's own form | laws |
|---|---|---|---|
| decision | MergeSpec, ContentSpec, Grouping | UnionFind, Context, Classes, Healed, Orphaned, Contested, HashSet, ClassIndex, Unexpressed, Pools, Yellow, Agreement, Decide | Adoption, SideNeutral, Identity, DecisionLaws |
| compiler and interpreter | Manifest, Apply, Plan, Tall | Manifest (`Emit`), Apply (`Applier`), Replay | Compile, Kinds, Rebase, Promises, Consequences, Filesystem |
| order | Paths, Removal | Namespace, Order | Paths, Removal, Replay |
| document | Document, Writer | Writer, RoundTrip (`WriteTree`), Reader, Printing (`EmitTree`), Emission (`EmitManifest`), Answers (`AnswerReader`, `WriteAnswers`) | RoundTrip, Emitted, RootLines |
| tables, editor, choices | Editor, Edits, Choices | Interning, HashSet, EditRun (`Directory`), Choices (`Chooser`) | EditRun, Choices, Interning |
| lifecycle | Lifecycle | Lifecycle (one step of a state machine at a time) | Lifecycle |

Names are numbers below `n`, except in Paths, Namespace, Order and the document modules, where a path
is a sequence of leaf names and a leaf a sequence of bytes. A content is a type, a text (a file's
bytes, a link's target, a device's number) and a set of attributes, compared as a whole, as the program
compares content handles.

The specification of the decision quantifies over *labellings*: two names are in one class when every
labelling that respects the generating pairs gives them one label. That is the equivalence the pairs
generate, said without paths, and it is what union-find is proved to hold.

## What is proved

- **The decision.** `Decide.Decide` runs every pass and leaves exactly the specified decision: result
  pools that are the classes of the surviving names, groups that are the connected side pools, each
  group flagged with exactly the conflict classes whose event occurs in it, and every clean pool with
  exactly the content it holds. The passes that were made fast are proved equal to the plain ones:
  the class-sorted backward sweep to the all-pairs scan, the stamp, hash set and counting-sort form of
  the shared-name check to its definition by pairs.
- **Adoption** is the least fixed point of a monotone operator, so it does not depend on the order
  names are visited, and what is left pending is in conflict.
- **Laws of the decision**: swapping the sides changes no group's cleanness and no clean group's pools
  and contents; an unchanged side, or two equal sides, rebuilds the other tree exactly.
- **The compiler**, whenever it emits: running the list over onto leaves every clean group as decided,
  if and only if no name is stranded and no pool is stuck (see below), and leaves every conflicted group
  as onto had it, after any prefix too. Any prefix followed by the whole list ends at the same tree.
- **The file system**: where making a name needs its directory and removing a directory needs it empty,
  and every name of the result has its directory, the list still runs without a failure, to the same
  tree, with the removed directories that hold a conflicted name left standing and no others.
- **Order and removal**: the byte comparison is the walk's pre-order; the list is in that order; every
  `ln` names an earlier path; every removed directory goes exactly when its scope is left.
- **The document**: whatever the format can carry, the writer's text parses back to the same list. What
  the emitter itself prints from its tree of nodes parses back to the emitted list, if and only if the
  root is left as onto has it. A resolution is read back from its writer's text in the same way, and the
  skeleton of any manifest is a resolution that is.
- **The editor** reaches the tree asked for from any tree, touching no object whose names are all right.
- **The lifecycle**: every hold is named by the record or the manifest in every state of every run with
  crashes, and one abort takes everything away.

## Where the code and its promise part

- A symbolic link cannot be written through: `za_relink` (`src/apply.c:1024-1053`) unlinks the name and
  makes a new link. Its comment says the manifest would have said `ln` for a second name, but when onto
  keeps a link under several names and the rebase gives it a new target, only the anchor has a line
  (`src/manifest.c:673-675`), and the other names stay on the old link. `Promises.Stranded` is
  that family, read off the trees and the decision before the list is run, and
  `Consequences.RetargetStrands` the smallest case.
- A device's number cannot be written either: a write brings a regular file's bytes, and of everything
  else only the attributes (`src/apply.c:1086-1107`); the number is set where a device is made
  (`src/apply.c:978-984`), and the check after a write does not look at it. But a kept device with another
  number is another content (`src/yellow.c:468-470`) and gets a plain `write`
  (`src/manifest.c:657-663`). `Promises.Stuck` is that family of result pools, and
  `Consequences.RenumberStays` the smallest case: the list runs and the old number stays.
- So the compiler theorem holds if and only if no name is stranded and no pool is stuck
  (`Promises.EmittedListReaches`), and what each name is left with in any case is
  `Promises.EmittedListLeaves`.
- A decision without conflict can have no list (`zm_err`, `src/manifest.c:649-650` and
  `src/manifest.c:669-670`). It has none exactly when some clean pool is *bare*: no name brings its
  content from from, and onto holds it nowhere it can be copied from (`Consequences.SourcelessIffBare`).
  `Consequences.EmissionCanFail` is a case: from links a second name to a file, sorted before it, and
  onto edits the file.
- A change of the root directory itself gets a line, `/ write /`, that the parser refuses: it wants the
  root line bare (`src/manifest.c:2427-2428`), and no text reads as an action on the root
  (`RoundTrip.RootNeverRead`). The document of a decision is read back as its list if and only if the
  root stays as onto has it, in a group without conflict (`Emission.EmitManifest`; the condition,
  `RootLines.RootStill`, is read off the trees and the decision). `Emitted.RootEditIsLost` is the
  smallest case.
- At done, in a teardown and over leavings, a release that fails is only warned about, and the record
  and the manifest go all the same. Each of the three ends with exactly the holds whose release warned,
  named nowhere, so every hold is still named if and only if no release of one warned
  (`Lifecycle.DoneLeavesWarned`, `Lifecycle.TeardownLeavesWarned`, `Lifecycle.LeavingsLeaveWarned`).
  Runs that bring each of them there with its holds are built in `Lifecycle.DoneHappens`,
  `Lifecycle.TeardownHappens` and `Lifecycle.LeavingsHappen`. `Lifecycle.HoldsAreNamed` is stated for
  the holds no release has failed on.

## Model

| member | source | states |
|---|---|---|
| `UnionFind.Find` | src/decide.c:13-26 | Finding a root compresses the path without changing any element's root or the partition the array stands for. |
| `UnionFind.Union` | src/decide.c:28-35 | After a union the admitted labellings are exactly those admitted before that also give x and y one label: the partition is the one generated so far, with one more pair. |
| `UnionFind.JoinedIffInseparable` | src/decide.c:13-35 | Two elements share a tree if and only if no labelling respecting the array tells them apart: the trees are the generated equivalence, no finer and no coarser. |
| `UnionFind.CompressKeepsRoot` | src/decide.c:19-24 | Pointing one element at its root changes no element's root. |
| `Context.Ctx.GroupOfNode` | src/decide.c:193-227 | From a side pool to its group's index, through a find that compresses the pool forest and leaves every group where it was. |
| `Context.Ctx.Flag` | src/decide.c:229-244 | Raising a class at a name adds exactly that pair; every group's flags stay the classes raised at its names. |
| `Classes.PassNames` | src/decide.c:241-270 | Every name's presence, survival and contestedness is recorded, and no two names are joined yet. |
| `Classes.PassLumps` | src/decide.c:272-336 | Side pools of two origins or with an added name join their settled names, and nothing else does: the partition respects exactly those pairs more. |
| `Classes.PassLabels` | src/decide.c:355-386 | Sorting by (from pool, onto pool) and joining neighbours joins exactly the settled names that share both pools. |
| `Classes.ChainReaches` | src/decide.c:380-383 | Joining only neighbours of a sorted run joins any two members of the run. |
| `Classes.PassClasses` | src/decide.c:388-408 | Class numbers: two settled names have one number if and only if they are in one class of the generated equivalence, and unsettled names have none. |
| `Classes.PassGroups` | src/decide.c:410-450 | Every side pool has its group, two pools one group if and only if names connect them, and no flag is raised. |
| `Classes.IndexIsGroup` | src/decide.c:433-439 | One index to a connected component: equal indices if and only if the pools are connected. |
| `Grouping.ClassInGroup` | src/decide.c:410-450 | No class of names spans two groups. |
| `Grouping.ResultInGroup` | src/decide.c:1169-1230 | No result pool spans two groups, contested placement included. |
| `Healed.SweepIsFirstParted` | src/decide.c:490-545 | On the class-sorted rows the sweep's answer for a row is the answer of the all-pairs scan for it. |
| `Healed.SweepStops` | src/decide.c:537-543 | The backward sweep stops at the nearest later row of the run in another side pool. |
| `Healed.PairUp` | src/decide.c:490-556 | Sorting, sweeping and putting back gives the list the all-pairs scan gives: same names, same partners, in pool order. |
| `Healed.AllPairsSound` | src/decide.c:490-497 | Every pair the plain scan lists is of one class and in different side pools. |
| `Healed.AllPairsComplete` | src/decide.c:490-497 | Every row that has a later row of its class in another side pool is in the list. |
| `Healed.HealSide` | src/decide.c:511-556 | On one side of one base pool exactly its healed names are flagged. |
| `Healed.PassHealed` | src/decide.c:558-589 | The flags raised are healed splits, and every healed split's group is flagged. |
| `Orphaned.PassOrphaned` | src/decide.c:591-627 | The flags raised are orphaned adds (a side pool with an added name whose base names are all gone), and every one's group is flagged. |
| `Contested.PoolClass` | src/decide.c:629-647 | A side pool's settled names are in no class, several, or the one class returned. |
| `Contested.CoMembersOf` | src/decide.c:649-663 | The other contested names of the pool, in order. |
| `Contested.PassContested` | src/decide.c:665-719 | Names added on both sides are flagged exactly when the two sides give them different homes or company, and otherwise join exactly the home both give: the partition respects exactly the placements more. |
| `HashSet.U64Set.Probe` | src/decide.c:104-133 | The probe terminates and answers membership: a full slot of the key, or a free slot every slot from the key's home to which is taken. |
| `HashSet.U64Set.Add` | src/decide.c:104-120 | The set gains exactly the key, growing when it passes half full. |
| `HashSet.U64Set.Grow` | src/decide.c:87-102 | Doubling and refilling keeps every key and leaves the table less than half full. |
| `HashSet.FullTable` | src/decide.c:109-116 | A table without a free slot holds as many keys as it has slots: why a half-full table always stops a probe. |
| `HashSet.GapMeansAbsent` | src/decide.c:122-133 | A free slot reached from the key's home means the key is nowhere in the table. |
| `HashSet.Capacity` | src/decide.c:46-65 | The first capacity is a power of two, at least sixteen and twice the keys hinted at, and no larger than that takes. |
| `Unexpressed.PairKeyTells` | src/decide.c:142-151 | One 64-bit key to an unordered pair of 32-bit pool indices: equal keys mean the same pair. |
| `ClassIndex.Build` | src/decide.c:819-845 | The counting sort gives every class its members, in ascending order, between its offset and the next. |
| `ClassIndex.SumIsStart` | src/decide.c:833-839 | The running sums of the counts are the places where the classes start. |
| `ClassIndex.NamesAscend` | src/decide.c:840-842 | A class's members are listed in ascending order, each once. |
| `Unexpressed.CoverSide` | src/decide.c:777-818 | The hash set holds the key of every pair of base pools that one side pool holds settled names of both, and of no other pair. |
| `Unexpressed.FirstUncovered` | src/decide.c:866-877 | A pair of the class whose key is missing, if and only if there is one. |
| `Unexpressed.CheckClass` | src/decide.c:846-878 | A class is flagged if and only if one of its names is in an unexpressed pair, by the stamped list of its base pools and the set of covered pairs. |
| `Unexpressed.PassUnexpressed` | src/decide.c:721-882 | The classes flagged are exactly those with two base pools of which no side pool holds settled names of both: the fast form flags what the definition by pairs says. |
| `Yellow.SideValueOf` | src/decide.c:912-945 | A side's value of a base name: dead, changed, or kept, and in permissive mode a reference to the names of the pool that kept the content. |
| `Yellow.ResolveOf` | src/decide.c:967-1014 | What the specification's operator answers for a value against the table so far. |
| `Yellow.FollowOf` | src/decide.c:981-1006 | A reference is answered only when every surviving kept name is, and in conflict when they differ. |
| `Adoption.FollowMonotone` | src/decide.c:981-1006 | Following a reference is monotone: with more of the table answered, an answer given stays. |
| `Adoption.ResolveMonotone` | src/decide.c:967-1014 | So is resolving a value. |
| `Adoption.AskedMonotone` | src/decide.c:1078-1100 | The adoption operator is monotone in the order that puts pending below every answer. |
| `Adoption.AnswerKeepsSound` | src/decide.c:1078-1100 | Writing one answer into the table in place keeps it below the least fixed point. |
| `Adoption.QuietIsAdopted` | src/decide.c:1078-1100 | A table below the least fixed point that no visit changes is the least fixed point. |
| `Adoption.AdoptedUnique` | src/decide.c:1078-1100 | There is one adoption table: it does not depend on the order of the visits. |
| `Yellow.Visit` | src/decide.c:1081-1099 | A visit that makes progress leaves fewer base names pending; one that does not leaves the table alone. |
| `Yellow.Adopt` | src/decide.c:1078-1100 | The in-place loop ends, at the least fixed point, with changed-both raised exactly at the names it put in conflict. |
| `Yellow.ThreeWayOne` | src/decide.c:1034-1077 | The three-way value of one base name, flagged changed-both if and only if both sides changed it apart. |
| `Agreement.TallyDisagrees` | src/decide.c:1116-1152 | The scan of one result pool finds a disagreement if and only if two of its base names ask for different contents, or none speaks and the two sides bring different ones. |
| `Agreement.VerdictHolds` | src/decide.c:1110-1154 | Where nothing is flagged the scan's verdict is the one content the pool holds. |
| `Decide.PassNamesContent` | src/decide.c:1016-1108 | Every base name is decided or in conflict, by the least fixed point, and changed-both flags exactly the conflicts, those left in a cycle included. |
| `Decide.PassPoolsContent` | src/decide.c:1110-1154 | Every result pool's content, with disagreement flagged exactly where its names cannot agree on one. |
| `Pools.PassPools` | src/decide.c:1169-1230 | The result pools partition the survivors: two names in one pool if and only if in one result class, each pool with its names in order. |
| `Decide.PassSharing` | src/decide.c:1375-1384 | From the names to the placed classes: the forest holds the result classes, and each of the four sharing conflicts is raised for its events and no others. |
| `Decide.Decide` | src/decide.c:1344-1406 | The whole decision: pools are the result classes, groups the connected side pools, a class is flagged on a group if and only if its event occurs there, and a clean pool has exactly the content it holds. |
| `SideNeutral.SwapSameClass` | src/decide.c:276-413 | Exchanging from and onto changes no class of names. |
| `SideNeutral.SwapSameGroup` | src/decide.c:193-227 | Nor which side pools are connected, though a name is looked up on one side first. |
| `SideNeutral.SwapAdopted` | src/decide.c:912-1108 | Nor the adoption table. |
| `SideNeutral.SwapFlagged` | src/decide.c:558-1158 | Nor, for the classes that do not depend on placement, which groups are flagged. |
| `SideNeutral.SwapClean` | src/decide.c:217-227 | A group is clean on one side's reading if and only if on the other's. |
| `SideNeutral.SwapResult` | src/decide.c:670-719 | In a clean group the result pools and what they hold are the same whichever side is called from, though contested names are placed beside one side's name. |
| `SideNeutral.FlagsFollowGroup` | src/decide.c:229-244 | Connected pools carry the same flags. |
| `DecisionLaws.SidesAreEqual` | src/decide.c:1344-1406 | Any decision of (base, from, onto) and any of (base, onto, from) have the same clean groups, the same survivors, and in clean groups the same pools with the same contents, in both modes. |
| `Identity.OntoAlone` | src/decide.c:246-450 | With from unchanged no event occurs, and classes and contents are onto's. |
| `Identity.FromAlone` | src/decide.c:246-450 | With onto unchanged no event occurs, and classes and contents are from's. |
| `Identity.Convergence` | src/decide.c:558-1158 | With both sides the same no event occurs, and classes and contents are theirs. |
| `DecisionLaws.UnchangedFrom` | src/decide.c:1344-1406 | Deciding (base, base, onto) gives onto's names, pools and contents with no conflict, strict or permissive. |
| `DecisionLaws.UnchangedOnto` | src/decide.c:1344-1406 | Deciding (base, from, base) gives from's. |
| `DecisionLaws.SameChanges` | src/decide.c:1344-1406 | Deciding (base, x, x) gives x's. |
| `Manifest.Anchors` | src/manifest.c:380-435 | Every result pool's anchor is its first name in the walk, and it keeps the onto object whose own first name in the walk is that anchor, if there is one. |
| `Manifest.AnchorIsFirst` | src/manifest.c:398-411 | The loop's first name of a pool is the anchor the specification names. |
| `Manifest.KeptBy` | src/manifest.c:414-433 | An onto object is kept by one pool: the one whose anchor is the object's first name. |
| `Manifest.FromPathOf` | src/manifest.c:513-541 | Where a content is copied from: the name itself if from has the content there, else the first name of the pool that does. |
| `Manifest.DupPathOf` | src/manifest.c:543-567 | A path of onto to copy a content from: the anchor of the first other pool that keeps an onto object with that content. |
| `Manifest.ActionOf` | src/manifest.c:599-678 | The line of one name, by its group, its pool, the anchor and the kept object. |
| `Manifest.Emit` | src/manifest.c:599-737 | The list is the lines of the walk, and there is none if and only if some anchor's content has no source. |
| `Consequences.SourcelessIffBare` | src/manifest.c:657-671 | Emission fails if and only if some clean pool has a content that from gives under none of its names and onto gives nowhere it can be taken from. |
| `Consequences.EmissionCanFail` | src/manifest.c:669-670 | A conflict-free decision with no list: from links a name before an edited file. |
| `Apply.Applier.Cp` | src/apply.c:926-1015 | Copying makes a new object with the content at the name, whatever stood there; only a directory standing where a directory is wanted stays the object it is. |
| `Apply.Applier.WriteTo` | src/apply.c:1024-1112 | Writing keeps the object for all its names and changes a file's bytes and attributes and of everything else the attributes alone, a device's number staying; except a symbolic link with another target: the one name gets a new link. A missing object or another type is a failure. |
| `Apply.Applier.LinkTo` | src/apply.c:1114-1208 | Linking does nothing if the two names share an object already, and otherwise moves the name onto the anchor's object. |
| `Apply.Applier.Remove` | src/apply.c:1291-1308 | Removing drops a name, or, for a directory, leaves it waiting. |
| `Apply.Applier.Close` | src/apply.c:1249-1289 | Leaving a scope removes the waiting directories that do not hold the next path, innermost first. |
| `Apply.Applier.ApplyList` | src/apply.c:1376-1502 | Applying a list is the fold of one step over it, then every open scope closed, stopping at the first failure. |
| `Compile.RunKeeps` | src/apply.c:1432-1497 | From any resumable store every prefix of the list runs without a failure, stays resumable, and has settled every name it passed. |
| `Compile.PerformKeeps` | src/apply.c:926-1208 | One action that fits its name settles the name (a kept device's anchor with the attributes and the old number) and unsettles no earlier one, writes through shared objects included. |
| `Compile.OneAnchor` | src/manifest.c:386-435 | No two settled anchors are on one object: what makes a write through an object harmless to other pools. |
| `Compile.CloseKeeps` | src/apply.c:1249-1289 | Removing waiting directories keeps every settled name. |
| `Compile.FinishedRealises` | src/apply.c:1432-1502 | A finished store is the plan's tree if and only if no name is left behind on a remade link and no pool is stuck with a text a write leaves. |
| `Compile.CompilerCorrect` | src/manifest.c:599-678 | For every plan and every list that fits it: the run ends, conflicted names keep their objects, and the decided tree is reached if and only if no name is left behind and no pool is stuck. |
| `Compile.ResumeReachesTheSame` | src/apply.c:1376-1502 | After the lines of any first part of the walk, the whole list reaches the tree one run reaches, up to the names of objects. |
| `Kinds.AdoptedKinds` | src/decide.c:912-1108 | Adoption never changes a type, when names on both sides have one type. |
| `Kinds.ResultKinds` | src/decide.c:1169-1230 | Names of one result pool have one type, and a directory is never pooled. |
| `Kinds.HeldKind` | src/decide.c:1109-1158 | What a result pool holds has its names' type. |
| `Rebase.PlanIsValid` | src/manifest.c:386-481 | Every decision over trees that agree on types makes a plan: anchors first, kept objects one to a pool, onto objects and result pools each in one group. |
| `Rebase.EmittedCarries` | src/manifest.c:599-678 | Every emitted list fits its decision's plan, line by line. |
| `Rebase.LinesAreList` | src/manifest.c:706-737 | The emitted lines are the plan's list. |
| `Promises.EmittedListReaches` | src/manifest.c:386-678 | Compiler correctness: an emitted list, run over onto, succeeds, leaves conflicted groups alone, and reaches the decision in every clean group (names, pools and contents) if and only if no name is stranded and no pool is stuck. |
| `Promises.EmittedListLeaves` | src/apply.c:1024-1112 | What each surviving name of a clean group holds after the run, whatever is lost: its decided content, a stranded name onto's, a stuck pool's the decided attributes with the old text. |
| `Promises.ConflictsIsolated` | src/manifest.c:439-481 | After any prefix of an emitted list every name of a conflicted group is on its own onto object, with its pool-mates and no other, and its content. |
| `Promises.AnyPrefixResumes` | src/apply.c:1376-1502 | Running any prefix, then the whole list, reaches the tree of one uninterrupted run up to object renaming; the whole list as prefix is a second run. |
| `Promises.PrefixIsList` | src/apply.c:1432-1497 | Every prefix of the emitted list is the list of some first part of the walk. |
| `Tall.WantedUnder` | src/apply.c:1249-1261 | When every name of the result has its directory, what stays under a removed directory lies there with a conflicted name. |
| `Tall.FullIffStanding` | src/apply.c:1249-1287 | When a removed directory's turn comes it still holds something if and only if it holds a conflicted name of onto. |
| `Tall.CloseSim` | src/apply.c:1262-1289 | Closing scopes where a full directory is left if a mark is inside and is a failure otherwise: no failure, and the flat store's outcome with the standing directories besides. |
| `Tall.DirectoryThere` | src/apply.c:950-986 | When a name is to be made its directory is there. |
| `Tall.PerformSim` | src/apply.c:926-1208 | Each action does the same in both stores, directory checks included. |
| `Tall.TallIsFlat` | src/apply.c:1376-1502 | The whole apply over a file system with directories is the flat one, with exactly the standing directories besides. |
| `Filesystem.ConflictMarked` | src/manifest.c:608-639 | Every conflicted name of onto has a conflict mark in the list. |
| `Filesystem.FilesystemReaches` | src/apply.c:1249-1502 | With the result's names in directories that stay: the list runs, conflicted groups are as onto left them, and the decision is reached, with the removed directories that hold a conflicted name left standing, if and only if no name is stranded and no pool is stuck. |
| `Consequences.RetargetStrands` | src/apply.c:1017-1053 | A retargeted symbolic link with two names: the second is stranded on the old target. |
| `Consequences.RenumberStays` | src/apply.c:1086-1110 | From gives a device another number: the list is one write, it succeeds, and the number stays. |
| `Consequences.NothingToBring` | src/manifest.c:599-678 | With from unchanged, or onto already equal to from, the list is empty. |
| `Consequences.ReplayReaches` | src/apply.c:1376-1502 | A rebase onto the base itself always has a list, and running it gives from's own tree if and only if no name is stranded and no pool is stuck. |
| `Paths.PathCmp` | src/manifest.c:1486-1507 | The byte loop computes the comparison with the slash below every byte. |
| `Paths.CompareIsOrder` | src/manifest.c:1485-1507 | On the bytes of paths the comparison is manifest order: leaf by leaf, a directory before what is in it. |
| `Paths.BeforeTransitive` | src/manifest.c:1485-1507 | Manifest order is transitive. |
| `Paths.BeforeTotal` | src/manifest.c:1485-1507 | And total. |
| `Paths.BeforeIrreflexive` | src/manifest.c:1485-1507 | And strict. |
| `Paths.TextInjective` | src/manifest.c:1485-1507 | The comparison is zero only for the same path. |
| `Paths.SiblingOrder` | src/manifest.c:208-224 | Between children of one directory manifest order is the order of their leaf names as bytes. |
| `Paths.UnderIsUnder` | src/manifest.c:2848-2866 | The byte test for lying under a directory is the test on path components, the root included. |
| `Paths.SubtreeTogether` | src/manifest.c:344-367 | A subtree is contiguous: what comes after a directory and not under it comes after all that is under it. |
| `Paths.UnderIsAfter` | src/manifest.c:1485-1507 | What lies under a directory comes after it. |
| `Namespace.Mark` | src/manifest.c:244-287 | Marking climbs to the first marked ancestor and still marks exactly the wanted names and every directory on the way to one. |
| `Namespace.LinkKids` | src/manifest.c:312-334 | Sorting once by parent and leaf and linking from the end gives every node its children, first child and next sibling, in leaf order. |
| `Namespace.WalkOrder` | src/manifest.c:344-367 | The iterative walk ends, visits every node once, and numbers them in manifest order. |
| `Order.Speak` | src/manifest.c:244-275 | The names wanted are the survivors, onto's names, and the from names of conflicted groups. |
| `Order.BuildWalk` | src/manifest.c:232-367 | The walk lists in manifest order exactly the wanted names, the directories on the way and the root, each once, and knows which have names below them. |
| `Order.BuildNodes` | src/manifest.c:232-367 | The nodes are the walked names and the root, each under its directory, children linked in leaf order, numbered in manifest order. |
| `Order.Directories` | src/manifest.c:484-505 | A name counts as a directory by structure if and only if some walked name lies under it. |
| `Order.KidsOfTrees` | src/manifest.c:484-505 | Over trees whose names lie in directories of theirs, a name with names below it is a directory on onto's side. |
| `Order.LinksGoBack` | src/manifest.c:2207-2213 | Every `ln` names a path that compares below its own, as the parser demands. |
| `Replay.EmittedInOrder` | src/manifest.c:706-737 | Every emitted list is strictly in manifest order. |
| `Replay.Replay` | src/manifest.c:1208-1262 | Decide, walk, emit and apply, end to end: no list exactly when some pool is bare, and otherwise conflicted groups as onto left them and clean ones as decided, if and only if no name is stranded and no pool is stuck. |
| `Removal.StackOfPrefix` | src/apply.c:1210-1289 | After any prefix of any list the waiting stack is a chain of nested directories: those whose removal was passed and whose scope no line has left. |
| `Removal.NeverBack` | src/apply.c:1210-1218 | Once a list in manifest order has left a directory, nothing later lies under it. |
| `Removal.RemovedOnLeaving` | src/apply.c:1249-1289 | A waiting directory stands untouched while its scope is open and is gone from the first later line outside it on. |
| `Removal.EveryScopeCloses` | src/apply.c:1432-1502 | After a whole apply nothing waits and every directory removed is gone. |
| `Writer.Entries` | src/manifest.c:2743-2846 | Sorting, deduplicating and pairing leaves one entry to every line the section needs, in order: each action, each directory on the way, and the removal with the creation that takes its name. |
| `Writer.Gather` | src/manifest.c:2808-2842 | The entries gathered are the root, every action's path and every directory above one. |
| `Writer.TurnFixes` | src/manifest.c:2743-2758 | A list in manifest order, a removal before the creation that takes its name, is fixed by its elements. |
| `RoundTrip.WriteTree` | src/manifest.c:3007-3054 | The lines written for any list the format can carry parse, scopes balanced and derived directories dropped, to that list. |
| `RoundTrip.CloseTop` | src/manifest.c:2966-2975 | Closing a directory, and printing the creation that takes a removed one's name, keeps what was printed so far readable. |
| `RoundTrip.RootNeverRead` | src/manifest.c:2417-2454 | Whatever parses has no action on the root. |
| `Reader.FindRepeats` | src/manifest.c:2570-2614 | Sorting and looking at neighbours finds a repeated path if and only if comparing all pairs would, the allowed second line after a removal aside, and blames the earliest line that repeats one. |
| `Reader.NeighbourRepeats` | src/manifest.c:2591-2614 | A neighbouring pair of equal paths makes the later line a repeat. |
| `Reader.RepeatHasNeighbour` | src/manifest.c:2591-2614 | Every line that repeats a name shows so between neighbours of the sorted list. |
| `Reader.Reader.NameLine` | src/manifest.c:2111-2244 | A name line is accepted if and only if the grammar accepts it where the parser stands, and then moves the parser as the grammar says. |
| `Reader.Reader.Section` | src/manifest.c:2417-2454 | The whole section: the actions the grammar gives, or a refusal exactly where it refuses. |
| `Answers.AnswerReader.NameLine` | src/manifest.c:2321-2410 | A resolution's name line is accepted if and only if the grammar accepts it, and then moves the parser as the grammar says. |
| `Answers.AnswerReader.Section` | src/manifest.c:2417-2454 | The whole section of a resolution: the answers the grammar gives, or a refusal exactly where it refuses, repeats and lines after the end included. |
| `Answers.ReadAlike` | src/manifest.c:3057-3066 | With each mark coded as a number, the resolution's parser and the manifest's go through the same states. |
| `Answers.WriteAnswers` | src/manifest.c:3316-3362 | The lines written for any answers the format can carry parse to those answers. |
| `Answers.SkeletonIs` | src/manifest.c:3376-3420 | The skeleton has one line to each conflict mark of the manifest, with the choice given, and no other. |
| `Answers.SkeletonCanonical` | src/manifest.c:3376-3420 | The skeleton of any manifest the format can carry is a resolution its format can carry. |
| `Answers.WriteSkeleton` | src/manifest.c:3316-3420 | A manifest's skeleton, written, is read back as it is. |
| `Emitted.EmittedCanonical` | src/manifest.c:843-879 | An emitted list that says nothing of the root is one the format can carry, so writing and parsing gives it back. |
| `Emitted.LoudIsLost` | src/manifest.c:2417-2454 | A list with a line about the root, or that reads from it, is the parse of no text. |
| `Emitted.WriteEmitted` | src/manifest.c:3007-3054 | An emitted list, written by the flat writer, is read back if and only if it says nothing of the root. |
| `RootLines.NoLineIffStill` | src/manifest.c:599-678 | A directory has no line if and only if its group is clean and it stays as onto has it, or stays away. |
| `RootLines.OnlyItsOwn` | src/manifest.c:507-567 | No line reads from a directory but the directory's own. |
| `RootLines.QuietIffStill` | src/manifest.c:599-678 | An emitted list says nothing of the root if and only if the root is still in the trees and the decision. |
| `RootLines.WriteDecided` | src/manifest.c:3007-3054 | An emitted list, written by the flat writer, is read back if and only if the root is still. |
| `Printing.Show` | src/manifest.c:680-699 | The climbs stop at the first shown node and still show exactly the nodes with an action and the way to them. |
| `Printing.NextShown` | src/manifest.c:830-836 | The first shown node of what is left of a list of children, in leaf order. |
| `Printing.WalkIn` | src/manifest.c:852-861 | After a node's line the next shown node in manifest order is its first shown child; without one, all under it is printed. |
| `Printing.WalkOn` | src/manifest.c:870-877 | After a node's close the next shown node is its next shown sibling; without one, its directory is done. |
| `Printing.EntsRight` | src/manifest.c:680-699 | The shown nodes are the entries the flat writer would gather for the list, one to a path and each directory above its own. |
| `Printing.EmitTree` | src/manifest.c:838-879 | The printing walk ends, and its lines parse, scopes balanced and the way dropped, to the list, for every list the format can carry. |
| `Emission.EmitManifest` | src/manifest.c:1208-1262 | From a decision to the document: none exactly when some content has no source, and otherwise read back as the emitted list if and only if the root stays as onto has it. |
| `Emitted.RootEditIsLost` | src/manifest.c:2427-2428 | When only the root changes the list has one line, a write of the root, and no text parses as that list. |
| `Editor.TakeVotes` | src/fixture.c:2267-2284 | One vote a name, for the object it is on, where the pool can keep that object. |
| `Editor.Claim` | src/fixture.c:2224-2302 | The greedy claim: each pool keeps at most one object that fits and that it has names on, each object once, and no open pair has more votes than what was claimed against it. |
| `Editor.UnclaimedFewer` | src/fixture.c:2285-2298 | Each round leaves fewer pools without a claim: the loop ends. |
| `Edits.Reps` | src/fixture.c:2304-2332 | A pool's representative is its first name on the object it keeps, else its first name; no pool is left without. |
| `Edits.IsSameSet` | src/fixture.c:2334-2357 | The count test holds if and only if the object's names are all the pool's and as many. |
| `Edits.SameSetAll` | src/fixture.c:2334-2357 | By counting, then every name of the pool is on the object. |
| `Edits.Decide` | src/fixture.c:2618-2662 | Each name's act, and the names that go. |
| `EditRun.UntouchedIsAlone` | src/fixture.c:2626-2662 | A name whose act is untouched is on an object no unlink, link or write reaches. |
| `EditRun.UntouchedTogether` | src/fixture.c:2334-2357 | Untouched holds of all names of a pool or of none. |
| `EditRun.Directory.Remove` | src/fixture.c:2766-2791 | What must go is gone, and only objects with such a name are touched. |
| `EditRun.Directory.Make` | src/fixture.c:2799-2870 | Every name is on its pool's object, pools apart, contents written once. |
| `EditRun.Directory.SetAttrs` | src/fixture.c:2944-2963 | Every object has its pool's whole content; no name moves. |
| `EditRun.Directory.EditTo` | src/fixture.c:3027-3091 | From any tree the edit reaches exactly the names, pools and contents asked for, and no object of an untouched name is unlinked, linked to or written. |
| `EditRun.NothingToDo` | src/fixture.c:2626-2662 | Over a tree that is right already every act is untouched and no name goes. |
| `Choices.Picks` | src/apply.c:2125-2236 | The sorted keys give every line the anchor a search back over all earlier lines would: the first line of its group, choice and side pool, or none. |
| `Choices.HeadIsFirst` | src/apply.c:2217-2232 | The head of a run of equal keys is the first line of that key in the document. |
| `Choices.Chooser.ApplyChoices` | src/apply.c:2238-2430 | One pass makes every chosen line true, leaves every other name alone, and does nothing if every line was true already. |
| `Choices.Chooser.MakeAll` | src/apply.c:2351-2390 | The first loop makes and links, in document order, what the choices hold. |
| `Choices.Chooser.DropAll` | src/apply.c:2391-2430 | The second loop drops, backwards, exactly the names the chosen side lacks. |
| `Choices.SameKeyTogether` | src/apply.c:2196-2210 | Lines of one key end on one object. |
| `Choices.ApplyTwice` | src/apply.c:2238-2430 | A second pass makes, links and drops nothing. |
| `Interning.Index.Probe` | src/name.c:160-192 | The probe ends and finds the key's id if and only if the key is in the table, else the free slot it would take; the inode table probes the same way. |
| `Interning.Index.Grow` | src/name.c:194-227 | Growth keeps every id and leaves room for one more key within half the table. |
| `Interning.Index.Intern` | src/name.c:252-284 | A key already there keeps its id, a new one takes the next: ids and keys stay one to one and stable. |
| `Interning.Index.Find` | src/name.c:286-292 | Lookup finds the id of every key and no other. |
| `Interning.Builder.Add` | src/name.c:464-539 | A name joins its inode's pool or opens one; a second name for a directory, another type or link count, or a name or tree already closed is refused with nothing changed. |
| `Interning.AddToPool` | src/name.c:515-538 | Name table and pool lists stay inverse when a name joins a pool. |
| `Interning.Builder.Seal` | src/name.c:562-593 | Sealing sorts every pool's names and closes the tree. |
| `Interning.Builder.Verify` | src/name.c:595-637 | The check passes if and only if every object that is not a directory has as many names as the file system counts links. |
| `Interning.SealedIsValid` | src/name.c:576-593 | A sealed tree is what the decision asks for: pools not empty, names ascending, every name in one pool, a directory with one name. |
| `Lifecycle.HoldsAreNamed` | src/run.c:3357-3451 | In every state of every run, with a crash between any two steps: a hold is named by the record or the manifest, a phase means the manifest is the decision, a clone is recorded. |
| `Lifecycle.StepInv` | src/run.c:6791-6921 | What every step of a start, continue, restart or abort, and every crash, keeps. |
| `Lifecycle.AbortTakesAll` | src/run.c:8338-8797 | From any such state one completed abort leaves no record, no clone, no manifest, no directory, and no hold whose release did not fail. |
| `Lifecycle.AbortTwice` | src/run.c:8488-8534 | From applying2 the first abort returns to the conflicts gate and the second takes everything. |
| `Lifecycle.NothingInTheWay` | src/run.c:5404-5439 | A clone is destroyed, or a dataset rolled back, only once the gate snapshot is gone. |
| `Lifecycle.DoneLeavesWarned` | src/run.c:4786-4808 | From any state at the start of done the verb ends with record, manifest and directory gone and exactly the holds left whose release warned: every hold is still named if and only if no release of one warned. |
| `Lifecycle.TeardownLeavesWarned` | src/run.c:2178-2195 | The same of a teardown, which releases the newest hold first. |
| `Lifecycle.LeavingsLeaveWarned` | src/run.c:8196-8216 | The same of an abort over leavings. |
| `Lifecycle.DoneHappens` | src/run.c:6791-6921 | A run reaches the start of done with all three holds. |
| `Lifecycle.TeardownHappens` | src/run.c:2988-3002 | A run reaches a teardown with all three holds. |
| `Lifecycle.LeavingsHappen` | src/run.c:8440-8443 | A run reaches an abort over leavings with all three holds: a restart killed after it destroyed its clone. |

## Left out

Of the source:

- Type changes. A directory that becomes a file has two lines (`zm_type_change`); names whose type
  differs between from and onto (`Kinds.SameKinds` says there are none) are outside the compiler and resume theorems. The
  document's second line for a removed directory's name is modelled.
- Parents, outside `Tall` and `Filesystem`. The store of the other theorems is flat: making a name under a
  directory that is not there, or removing one that is not empty, succeeds. The decision does not
  guarantee that a surviving name's directory survives, which the two modules ask for.
- The `why` names of a conflict (first flag wins), the member lists of a group, the conflict records of
  the document, its header, its field splitting and the escaping of names.
- A kill in the middle of one action: a crash falls between two actions, or between two steps of a verb.
- Memory, allocation failure and the capacity limits of the tables. The hash functions are a parameter:
  the tables are right for any.
- The header of a resolution and the two counts in it; the apply of a repair and the check after it; what
  an apply reports of skipped lines.
- Attributes one by one, file flags and times, byte copying, umask, sockets. Content equality is equality
  of the whole content.
- libzfs, mounts, signals, the terminal, command lines.

Of single members:

- Apply.Applier.ApplyList: does not model the path checks and skips of `zr_apply_with`, which ask the disk.
- Apply.Applier.Close: the full directory that is left or is a failure is `Tall.CloseSim`.
- Choices.Chooser.ApplyChoices: over names that are not directories; blocked removals and late rmdirs need directories and are not modelled.
- EditRun.Directory.EditTo: does not model file flags; the steps that clear and set them touch no name and no content.
- Edits.Reps: leaves out the second loop, for pools without a representative; none is left when it starts.
- HashSet.Capacity: the refusal of a capacity whose byte size would overflow is left out.
- Context.Ctx.Flag: the two names of the first flag (`why`) are left out; which comes first depends on the order of the passes.
- Manifest.ActionOf: the second line of a type change is left out, as above.
- Manifest.Emit: type changes are left out, as above; which nodes are shown is `Printing.Show`.
- Reader.Reader.NameLine: the fields of a line come split and decoded; the references to conflict records are left out.
- Edits.Decide: does not model the need for file flags.
- Interning.Builder.Verify: models the link counts; the text of the complaint is left out.
- Interning.Index.Intern: for paths, the byte check of a path (`zn_path_valid`) comes before it and is not modelled.
- Lifecycle.HoldsAreNamed: for holds no release has failed on; a release that only warns loses its hold, as proved beside it.
- Lifecycle.AbortTakesAll: one rebase, whose start is made once and whose manifest is in the run directory. A call that fails stops the verb; what the code only warns about besides a release (clearing the record, writing the phase, destroying the clone in a teardown, taking away documents and directory) is taken to succeed. From applying2 with its gate snapshot the first abort goes back one gate instead.
- Unexpressed.PassUnexpressed: asks that base have at most 2^32 pools, the range of a pool index.
