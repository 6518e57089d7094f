/**
  The front end's data layer: the challenge and badge records, the three
  authored challenges, the demo-data generators, the starter code templates
  and the `getChallenge` lookup.
 */
module MockData {
  import opened Wrappers
  import opened Text

  datatype Difficulty = Beginner | Intermediate | Advanced

  /** The hint a step gives the visualization panel. */
  datatype VisualizationType = NodeCreate | NodeLink | NodeTraverse | Complete | Console

  datatype ChallengeStep = ChallengeStep(
    id: int,
    instruction: string,
    hint: string,
    expectedCode: seq<string>,
    visualizationType: VisualizationType)

  datatype Challenge = Challenge(
    id: string,
    title: string,
    description: string,
    difficulty: Difficulty,
    xpReward: nat,
    isLocked: bool,
    isCompleted: bool,
    category: string,
    steps: seq<ChallengeStep>)

  /** The badge glyphs, one constructor per emoji used. */
  datatype Icon =
    | DirectHit | ChainLink | HighVoltage | GemStone | DeciduousTree | Mage
    | ThirdPlaceMedal | SecondPlaceMedal | FirstPlaceMedal | Trophy | MilitaryMedal

  /** `earnedAt` is the instant `new Date()` returned, passed in as `now`. */
  datatype Badge = Badge(
    id: string,
    name: string,
    description: string,
    icon: Icon,
    isEarned: bool,
    earnedAt: Option<int>)

  // ---------------------------------------------------------------------------
  // Badges
  // ---------------------------------------------------------------------------

  const Tiers: seq<string> := ["Bronze", "Silver", "Gold", "Platinum"]
  const Actions: seq<string> := ["Solver", "Streak", "Helper", "Reviewer", "Bug Hunter"]
  const BadgeCount: nat := 70

  function FixedBadges(now: int): (bs: seq<Badge>)
    ensures |bs| == 6
  {
    [ Badge("first-step", "First Steps", "Complete your first challenge", DirectHit, true, Some(now)),
      Badge("linked-master", "Linked Master", "Master linked list operations", ChainLink, true, Some(now)),
      Badge("speed-demon", "Speed Demon", "Complete 5 challenges in one day", HighVoltage, false, None),
      Badge("perfectionist", "Perfectionist", "Complete 10 challenges without hints", GemStone, false, None),
      Badge("tree-hugger", "Tree Hugger", "Master binary tree operations", DeciduousTree, false, None),
      Badge("algo-wizard", "Algorithm Wizard", "Complete all sorting challenges", Mage, false, None) ]
  }

  /** The medal shown for a tier; every tier other than the first three gets the trophy. */
  function TierIcon(tier: string): Icon
  {
    if tier == "Bronze" then ThirdPlaceMedal
    else if tier == "Silver" then SecondPlaceMedal
    else if tier == "Gold" then FirstPlaceMedal
    else Trophy
  }

  /**
    The badge pushed for one (action, tier) pair. `earned` and `dated` are the
    two independent random draws the generator makes for it.
   */
  function TierBadge(action: string, tier: string, earned: bool, dated: bool, now: int): (b: Badge)
    ensures b.isEarned == earned
    ensures b.earnedAt.Some? <==> dated
    ensures b.earnedAt.Some? ==> b.earnedAt.value == now
    ensures b.icon == ThirdPlaceMedal <==> tier == "Bronze"
    ensures b.icon == Trophy <==> tier !in ["Bronze", "Silver", "Gold"]
    ensures b.icon != MilitaryMedal
    ensures "badge-" < b.id
  {
    Badge("badge-" + ToLower(action) + "-" + ToLower(tier),
          tier + " " + action,
          "Achieve " + tier + " level in " + action + " activities",
          TierIcon(tier),
          earned,
          if dated then Some(now) else None)
  }

  /** The tier badge at position `k` of the generated list (actions outer, tiers inner). */
  function TierBadgeAt(k: nat, earned: nat -> bool, dated: nat -> bool, now: int): Badge
    requires 6 <= k < 26
  {
    TierBadge(Actions[(k - 6) / 4], Tiers[(k - 6) % 4], earned(k), dated(k), now)
  }

  function MilestoneBadge(i: nat, earned: bool): (b: Badge)
    ensures b.isEarned == earned
    ensures b.earnedAt.None?
    ensures b.icon == MilitaryMedal
    ensures "milestone-" < b.id
  {
    Badge("milestone-" + Show(i),
          "Milestone " + Show(i),
          "Unlock milestone " + Show(i) + " by completing tasks",
          MilitaryMedal,
          earned,
          None)
  }

  /**
    `generateBadges`: the six fixed badges, then one badge per action and tier,
    then milestones numbered by their position until there are seventy.
    The random draws are the parameters `earned` and `dated`, indexed by the
    position of the badge they decide.
   */
  method GenerateBadges(earned: nat -> bool, dated: nat -> bool, now: int) returns (badges: seq<Badge>)
    ensures |badges| == BadgeCount
    ensures badges[..6] == FixedBadges(now)
    ensures forall k :: 6 <= k < 26 ==> badges[k] == TierBadgeAt(k, earned, dated, now)
    ensures forall k :: 26 <= k < BadgeCount ==> badges[k] == MilestoneBadge(k, earned(k))
  {
    var fixed := FixedBadges(now);
    var tiered := PushTierBadges(fixed, earned, dated, now);
    badges := PushMilestones(tiered, earned);
    assert badges[..6] == tiered[..26][..6];
  }

  /** The nested loop over actions and tiers, appending twenty badges after the six fixed ones. */
  method PushTierBadges(fixed: seq<Badge>, earned: nat -> bool, dated: nat -> bool, now: int) returns (badges: seq<Badge>)
    requires |fixed| == 6
    ensures |badges| == 26
    ensures badges[..6] == fixed
    ensures forall k :: 6 <= k < 26 ==> badges[k] == TierBadgeAt(k, earned, dated, now)
  {
    badges := fixed;
    var a := 0;
    while a < |Actions|
      invariant 0 <= a <= |Actions|
      invariant |badges| == 6 + 4 * a
      invariant badges[..6] == fixed
      invariant forall k :: 6 <= k < |badges| ==> badges[k] == TierBadgeAt(k, earned, dated, now)
    {
      var t := 0;
      while t < |Tiers|
        invariant 0 <= t <= |Tiers|
        invariant |badges| == 6 + 4 * a + t
        invariant badges[..6] == fixed
        invariant forall k :: 6 <= k < |badges| ==> badges[k] == TierBadgeAt(k, earned, dated, now)
      {
        var k := |badges|;
        assert (k - 6) / 4 == a && (k - 6) % 4 == t;
        badges := badges + [TierBadge(Actions[a], Tiers[t], earned(k), dated(k), now)];
        t := t + 1;
      }
      a := a + 1;
    }
  }

  /** The fill loop: milestones numbered by their position until there are seventy badges. */
  method PushMilestones(tiered: seq<Badge>, earned: nat -> bool) returns (badges: seq<Badge>)
    requires |tiered| == 26
    ensures |badges| == BadgeCount
    ensures badges[..26] == tiered
    ensures forall k :: 26 <= k < BadgeCount ==> badges[k] == MilestoneBadge(k, earned(k))
  {
    badges := tiered;
    var i := |badges|;
    while i < BadgeCount
      invariant 26 <= i <= BadgeCount
      invariant |badges| == i
      invariant badges[..26] == tiered
      invariant forall k :: 26 <= k < i ==> badges[k] == MilestoneBadge(k, earned(k))
    {
      badges := badges + [MilestoneBadge(i, earned(i))];
      i := i + 1;
    }
  }


  /** Two tier badges share an icon exactly when they share a tier, whatever their action. */
  lemma TierIconDependsOnlyOnTier(badges: seq<Badge>, earned: nat -> bool, dated: nat -> bool, now: int, j: nat, k: nat)
    requires |badges| == BadgeCount
    requires forall m :: 6 <= m < 26 ==> badges[m] == TierBadgeAt(m, earned, dated, now)
    requires 6 <= j < 26 && 6 <= k < 26
    ensures badges[j].icon == badges[k].icon <==> (j - 6) % 4 == (k - 6) % 4
  {
    assert badges[j] == TierBadgeAt(j, earned, dated, now);
    assert badges[k] == TierBadgeAt(k, earned, dated, now);
  }

  /** Milestone ids are pairwise distinct. */
  lemma MilestoneIdsDistinct(badges: seq<Badge>, earned: nat -> bool, j: nat, k: nat)
    requires |badges| == BadgeCount
    requires forall m :: 26 <= m < BadgeCount ==> badges[m] == MilestoneBadge(m, earned(m))
    requires 26 <= j < k < BadgeCount
    ensures badges[j].id != badges[k].id
  {
    assert badges[j] == MilestoneBadge(j, earned(j));
    assert badges[k] == MilestoneBadge(k, earned(k));
    if badges[j].id == badges[k].id {
      PrefixedShowInjective("milestone-", j, k);
    }
  }

  // ---------------------------------------------------------------------------
  // Authored challenges
  // ---------------------------------------------------------------------------

  const DataStructures: string := "Data Structures"

  const LinkedListChallenge: Challenge := Challenge(
    "linked-list-intro",
    "Introduction to Linked Lists",
    "Learn how to create and connect nodes in a singly linked list",
    Beginner, 150, false, false, DataStructures,
    [ ChallengeStep(1, "Create a new node structure with data and next pointer",
        "A node needs to store both its value and a reference to the next node. In Python, use `__init__` to initialize `self.data` and `self.next`.",
        ["struct Node", "class Node", "data", "next"], NodeCreate),
      ChallengeStep(2, "Assign a value to your node's data field",
        "Set the data property to store a value like 42. `node = Node(42)`",
        ["data =", "data:", "value"], NodeCreate),
      ChallengeStep(3, "Create a second node and link it to the first",
        "Create a new node (e.g., with value 10) and set `first_node.next = second_node`. This creates the chain.",
        ["next =", "next:", "->next", ".next"], NodeLink),
      ChallengeStep(4, "Traverse the linked list to print all values",
        "Use a while loop: `current = head`. While `current` is not None, print `current.data` and move to `current.next`.",
        ["while", "current", "null", "None", "nullptr"], NodeTraverse),
      ChallengeStep(5, "Insert a node at the beginning (Head)",
        "Create a new node. Set its next pointer to the current head. Update head to be the new node.",
        ["head", "next"], NodeLink),
      ChallengeStep(6, "Delete the last node",
        "Traverse to the second-to-last node (where `current.next.next` is None). Set `current.next` to None.",
        ["next", "None", "null"], NodeTraverse) ])

  const PythonIntroChallenge: Challenge := Challenge(
    "python-basics-1",
    "Python: Variables & Printing",
    "Learn the basics of Python: defining variables and printing to the console.",
    Beginner, 100, false, false, "Python",
    [ ChallengeStep(1, "Create a variable named `greeting` and assign it the string \"Hello CodeQuest\"",
        "In Python, you define a variable just by naming it: `variable_name = \"value\"`",
        ["greeting =", "\"Hello CodeQuest\"", "'Hello CodeQuest'"], Console),
      ChallengeStep(2, "Print the value of `greeting` to the console",
        "Use the `print()` function.",
        ["print(greeting)"], Console),
      ChallengeStep(3, "Create a variable `age` with value 25 and print it",
        "`age = 25` then `print(age)`",
        ["age = 25", "print(age)"], Console) ])

  const JsFunctionChallenge: Challenge := Challenge(
    "js-functions-1",
    "JavaScript: Functions",
    "Master the power of reusable code with functions in JavaScript.",
    Beginner, 125, false, false, "JavaScript",
    [ ChallengeStep(1, "Define a function named `sayHello` that prints \"Hello!\"",
        "Use `function sayHello() { ... }` or `const sayHello = () => { ... }`",
        ["function sayHello", "console.log(\"Hello!\")", "console.log('Hello!')"], Console),
      ChallengeStep(2, "Call the `sayHello` function",
        "Just write the function name followed by parentheses: `sayHello()`",
        ["sayHello()"], Console) ])

  const AuthoredChallenges: seq<Challenge> := [LinkedListChallenge, PythonIntroChallenge, JsFunctionChallenge]

  /** Step ids run 1, 2, ..., n in list order. */
  predicate StepsNumbered(c: Challenge)
  {
    forall i :: 0 <= i < |c.steps| ==> c.steps[i].id == i + 1
  }

  /** Every step lists at least one keyword, and no keyword is empty. */
  predicate KeywordsPresent(c: Challenge)
  {
    forall i :: 0 <= i < |c.steps| ==>
      |c.steps[i].expectedCode| > 0 &&
      forall j :: 0 <= j < |c.steps[i].expectedCode| ==> c.steps[i].expectedCode[j] != ""
  }

  predicate WellFormed(c: Challenge)
  {
    |c.steps| > 0 && c.xpReward > 0 && StepsNumbered(c) && KeywordsPresent(c)
  }

  lemma LinkedListChallengeWellFormed()
    ensures WellFormed(LinkedListChallenge)
  {
    assert StepsNumbered(LinkedListChallenge);
    assert KeywordsPresent(LinkedListChallenge);
  }

  lemma PythonIntroChallengeWellFormed()
    ensures WellFormed(PythonIntroChallenge)
  {
    assert StepsNumbered(PythonIntroChallenge);
    assert KeywordsPresent(PythonIntroChallenge);
  }

  lemma JsFunctionChallengeWellFormed()
    ensures WellFormed(JsFunctionChallenge)
  {
    assert StepsNumbered(JsFunctionChallenge);
    assert KeywordsPresent(JsFunctionChallenge);
  }

  lemma AuthoredChallengesWellFormed()
    ensures forall c :: c in AuthoredChallenges ==>
      |c.steps| > 0 && c.xpReward > 0 && StepsNumbered(c) && KeywordsPresent(c)
  {
    LinkedListChallengeWellFormed();
    PythonIntroChallengeWellFormed();
    JsFunctionChallengeWellFormed();
  }

  // ---------------------------------------------------------------------------
  // Challenge catalogue
  // ---------------------------------------------------------------------------

  const Categories: seq<string> := ["Data Structures", "Algorithms", "Frontend", "Database", "Backend", "DevOps"]

  type CategoryIndex = i: nat | i < 6

  /** The random choices the generator makes for one numbered challenge. */
  datatype ChallengeDraw = ChallengeDraw(category: CategoryIndex, difficulty: Difficulty, locked: bool, completed: bool)

  function DifficultyName(d: Difficulty): string
  {
    match d
    case Beginner => "beginner"
    case Intermediate => "intermediate"
    case Advanced => "advanced"
  }

  /** The reward a generated challenge gets for its difficulty. */
  function XpFor(d: Difficulty): (xp: nat)
    ensures xp == 100 <==> d == Beginner
    ensures xp == 250 <==> d == Intermediate
    ensures xp == 500 <==> d == Advanced
  {
    match d
    case Beginner => 100
    case Intermediate => 250
    case Advanced => 500
  }

  /** The three linked-list challenges that follow the authored ones; they have no steps. */
  const ExtraChallenges: seq<Challenge> := [
    Challenge("linked-list-insert", "Inserting Nodes",
      "Learn to insert nodes at different positions in a linked list",
      Beginner, 200, false, true, DataStructures, []),
    Challenge("linked-list-delete", "Deleting Nodes",
      "Master the art of safely removing nodes from a linked list",
      Intermediate, 250, false, true, DataStructures, []),
    Challenge("linked-list-reverse", "Reversing a Linked List",
      "Reverse the order of nodes in a linked list",
      Intermediate, 300, false, false, DataStructures, []) ]

  const FixedChallenges: seq<Challenge> := AuthoredChallenges + ExtraChallenges

  const FirstNumbered: nat := 5
  const LastNumbered: nat := 100
  const CatalogueSize: nat := 102

  function NumberedChallenge(i: nat, d: ChallengeDraw): (c: Challenge)
    ensures c.steps == []
    ensures c.category in Categories
    ensures c.xpReward in {100, 250, 500}
    ensures c.isLocked == d.locked && c.isCompleted == d.completed
    ensures "challenge-" < c.id
  {
    var category := Categories[d.category];
    Challenge("challenge-" + Show(i),
              category + " Challenge " + Show(i),
              "Master the concepts of " + category + " in this " + DifficultyName(d.difficulty) + " level challenge.",
              d.difficulty,
              XpFor(d.difficulty),
              d.locked,
              d.completed,
              category,
              [])
  }

  /** The shape of `mockChallenges`: the six fixed entries, then challenges 5 to 100. */
  predicate GeneratedCatalogue(cs: seq<Challenge>, draw: nat -> ChallengeDraw)
  {
    && |cs| == CatalogueSize
    && cs[..6] == FixedChallenges
    && forall k :: 6 <= k < CatalogueSize ==> cs[k] == NumberedChallenge(k - 1, draw(k - 1))
  }

  /** `generateChallenges`; `draw(i)` stands for the random choices made for challenge `i`. */
  method GenerateChallenges(draw: nat -> ChallengeDraw) returns (cs: seq<Challenge>)
    ensures GeneratedCatalogue(cs, draw)
  {
    cs := [];
    cs := cs + [LinkedListChallenge];
    cs := cs + [PythonIntroChallenge];
    cs := cs + [JsFunctionChallenge];
    cs := cs + [ExtraChallenges[0]];
    cs := cs + [ExtraChallenges[1]];
    cs := cs + [ExtraChallenges[2]];
    assert cs == FixedChallenges;
    var i := FirstNumbered;
    while i <= LastNumbered
      invariant FirstNumbered <= i <= LastNumbered + 1
      invariant |cs| == i + 1
      invariant cs[..6] == FixedChallenges
      invariant forall k :: 6 <= k < |cs| ==> cs[k] == NumberedChallenge(k - 1, draw(k - 1))
    {
      cs := cs + [NumberedChallenge(i, draw(i))];
      i := i + 1;
    }
  }

  /** No id of the generated catalogue is used twice. */
  lemma GeneratedIdsDistinct(cs: seq<Challenge>, draw: nat -> ChallengeDraw, j: nat, k: nat)
    requires GeneratedCatalogue(cs, draw)
    requires j < k < |cs|
    ensures cs[j].id != cs[k].id
  {
    if k < 6 {
      assert cs[j] == cs[..6][j] && cs[k] == cs[..6][k];
      FixedIdsDistinct(j, k);
    } else if j < 6 {
      assert cs[j] == cs[..6][j];
      FixedIdsNotNumbered(j);
      NumberedIdStartsWithC(k - 1, draw(k - 1));
    } else {
      NumberedIdsDistinct(j - 1, k - 1, draw(j - 1), draw(k - 1));
    }
  }

  /** The six hand-written challenges have pairwise distinct ids. */
  lemma FixedIdsDistinct(j: nat, k: nat)
    requires j < k < 6
    ensures FixedChallenges[j].id != FixedChallenges[k].id
  {
  }

  /** No hand-written challenge id starts with the generated ids' `c`. */
  lemma FixedIdsNotNumbered(j: nat)
    requires j < 6
    ensures |FixedChallenges[j].id| > 0 && FixedChallenges[j].id[0] != 'c'
  {
  }

  /** Every generated challenge id starts with the `c` of `challenge-`. */
  lemma NumberedIdStartsWithC(i: nat, d: ChallengeDraw)
    ensures |NumberedChallenge(i, d).id| > 0 && NumberedChallenge(i, d).id[0] == 'c'
  {
    assert "challenge-" < NumberedChallenge(i, d).id;
  }

  /** Generated challenges with different numbers have different ids. */
  lemma NumberedIdsDistinct(i: nat, j: nat, d: ChallengeDraw, e: ChallengeDraw)
    requires i != j
    ensures NumberedChallenge(i, d).id != NumberedChallenge(j, e).id
  {
    if NumberedChallenge(i, d).id == NumberedChallenge(j, e).id {
      PrefixedShowInjective("challenge-", i, j);
    }
  }

  /** Every generated challenge has no steps and the reward its difficulty dictates. */
  lemma NumberedChallengesShape(cs: seq<Challenge>, draw: nat -> ChallengeDraw, k: nat)
    requires GeneratedCatalogue(cs, draw)
    requires 6 <= k < |cs|
    ensures cs[k].steps == []
    ensures cs[k].xpReward == XpFor(cs[k].difficulty)
    ensures cs[k].xpReward in {100, 250, 500}
  {
    assert cs[k] == NumberedChallenge(k - 1, draw(k - 1));
  }

  /** Entries 3, 4 and 5 are the three extra linked-list challenges, and their step lists are empty. */
  lemma ExtraChallengesHaveNoSteps(cs: seq<Challenge>, draw: nat -> ChallengeDraw)
    requires GeneratedCatalogue(cs, draw)
    ensures forall k :: 3 <= k < 6 ==> cs[k].steps == [] && cs[k].category == DataStructures
  {
    assert cs[..6] == FixedChallenges;
    assert forall k :: 3 <= k < 6 ==> cs[k] == FixedChallenges[k];
  }

  // ---------------------------------------------------------------------------
  // Lookup
  // ---------------------------------------------------------------------------

  /** The search behind `find(c => c.id === id)`: the position of the first match, if any. */
  function FindIndex(cs: seq<Challenge>, id: string): (r: Option<nat>)
    ensures r.Some? ==> r.value < |cs| && cs[r.value].id == id
    ensures r.Some? ==> forall j :: 0 <= j < r.value ==> cs[j].id != id
    ensures r.None? ==> forall j :: 0 <= j < |cs| ==> cs[j].id != id
  {
    if |cs| == 0 then None
    else if cs[0].id == id then Some(0)
    else match FindIndex(cs[1..], id)
      case None => None
      case Some(k) => Some(k + 1)
  }

  /** `api.getChallenge(id)`: the first challenge with that id, or undefined. */
  function GetChallenge(cs: seq<Challenge>, id: string): (r: Option<Challenge>)
    ensures r.Some? ==> r.value.id == id && r.value in cs
    ensures r.Some? ==> exists k :: 0 <= k < |cs| && cs[k] == r.value && forall j :: 0 <= j < k ==> cs[j].id != id
    ensures r.None? <==> forall c :: c in cs ==> c.id != id
  {
    match FindIndex(cs, id)
    case None => None
    case Some(k) => Some(cs[k])
  }

  // ---------------------------------------------------------------------------
  // Code templates
  // ---------------------------------------------------------------------------

  /** The keys of `codeTemplates`, which are also the editor's languages. */
  datatype Language = Python | JavaScript | Java | Cpp | C

  const PythonTemplate: string :=
    "# Python - Linked List Node\n"
    + "class Node:\n"
    + "    def __init__(self, data):\n"
    + "        self.data = data\n"
    + "        self.next = None\n"
    + "\n"
    + "# Create your first node here\n"

  const JavaScriptTemplate: string :=
    "// JavaScript - Linked List Node\n"
    + "class Node {\n"
    + "    constructor(data) {\n"
    + "        this.data = data;\n"
    + "        this.next = null;\n"
    + "    }\n"
    + "}\n"
    + "\n"
    + "// Create your first node here\n"

  const JavaTemplate: string :=
    "// Java - Linked List Node\n"
    + "class Node {\n"
    + "    int data;\n"
    + "    Node next;\n"
    + "    \n"
    + "    Node(int data) {\n"
    + "        this.data = data;\n"
    + "        this.next = null;\n"
    + "    }\n"
    + "}\n"
    + "\n"
    + "// Create your first node here\n"

  const CppTemplate: string :=
    "// C++ - Linked List Node\n"
    + "struct Node {\n"
    + "    int data;\n"
    + "    Node* next;\n"
    + "    \n"
    + "    Node(int val) : data(val), next(nullptr) {}\n"
    + "};\n"
    + "\n"
    + "// Create your first node here\n"

  const CTemplate: string :=
    "// C - Linked List Node\n"
    + "#include <stdlib.h>\n"
    + "\n"
    + "struct Node {\n"
    + "    int data;\n"
    + "    struct Node* next;\n"
    + "};\n"
    + "\n"
    + "// Create your first node here\n"

  /** `codeTemplates[language]`; the record has an entry for every language. */
  function CodeTemplate(language: Language): (t: string)
    ensures t != ""
  {
    match language
    case Python => PythonTemplate
    case JavaScript => JavaScriptTemplate
    case Java => JavaTemplate
    case Cpp => CppTemplate
    case C => CTemplate
  }
}
