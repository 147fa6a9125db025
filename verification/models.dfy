/**
 * The back end's data model (the SQLAlchemy classes) and the category
 * table it seeds at start-up.
 */
module Models {

  /** The two kinds of reaction a user can leave on a blog. */
  datatype Interaction = Like | Dislike {
    /** The enum's stored value, used in the server's messages and URLs. */
    function Value(): string {
      match this
      case Like => "like"
      case Dislike => "dislike"
    }
  }

  datatype Category = Category(id: int, name: string, description: string)

  /** A row of the `blogs` table without its primary key (the key of the
      store's map); `userId` is the owner. */
  datatype Blog = Blog(
    title: string,
    description: string,
    body: string,
    published: bool,
    createdAt: int,
    userId: int,
    categoryId: int)

  datatype User = User(id: int, username: string, email: string)

  /** The request body accepted by create and update: it has no owner field. */
  datatype BlogCreate = BlogCreate(title: string, description: string, body: string, categoryId: int)
}

/** Seeding of the `categories` table. */
module Database {
  import opened Models

  datatype CategorySeed = CategorySeed(name: string, description: string)

  /** The fixed list of categories inserted into an empty table. */
  const CATEGORIES: seq<CategorySeed> := [
    CategorySeed("Personal Blog",
                 "Life updates, stories, thoughts, and reflections from an individual."),
    CategorySeed("Tech Blog",
                 "Tutorials, news, and discussions around programming, gadgets, and tech trends."),
    CategorySeed("Travel Blog",
                 "Travel guides, itineraries, cultural experiences, and destination reviews."),
    CategorySeed("Food Blog",
                 "Recipes, cooking tips, restaurant reviews, and culinary experiences."),
    CategorySeed("Finance Blog",
                 "Personal finance, investing, saving tips, and budgeting."),
    CategorySeed("Health & Fitness Blog",
                 "Exercise routines, nutrition advice, wellness strategies."),
    CategorySeed("Educational Blog",
                 "Teach academic or skill-based topics (math, coding, languages, etc.)."),
    CategorySeed("Fashion Blog",
                 "Outfit ideas, fashion trends, clothing reviews, and styling tips."),
    CategorySeed("Parenting Blog",
                 "Tips, experiences, and support for raising children."),
    CategorySeed("DIY/Crafts Blog",
                 "Step-by-step projects for home decor, art, or crafting."),
    CategorySeed("Photography Blog",
                 "Showcase photography, tutorials, gear reviews, and inspiration."),
    CategorySeed("Lifestyle Blog",
                 "A mix of daily life, routines, productivity, home, and personal development."),
    CategorySeed("Productivity Blog",
                 "Time management, goal-setting, tools, and personal effectiveness tips."),
    CategorySeed("Gaming Blog",
                 "Game reviews, news, guides, walkthroughs, and gaming culture."),
    CategorySeed("Book/Reading Blog",
                 "Book reviews, reading challenges, author insights, literary discussions."),
    CategorySeed("Career/Job Blog",
                 "Resume tips, interview strategies, workplace advice, career paths."),
    CategorySeed("Coding/Dev Blog",
                 "Tutorials, tools, frameworks, and software engineering topics."),
    CategorySeed("Environmental Blog",
                 "Climate change, sustainability, eco-living, and green tech."),
    CategorySeed("Political/Opinion Blog",
                 "Commentary, analysis, or discussion on politics and current affairs."),
    CategorySeed("Pop Culture Blog",
                 "TV, movies, music, celebrity news, fandom theories."),
    CategorySeed("Mental Health Blog",
                 "Coping strategies, therapy insights, self-care advice."),
    CategorySeed("History Blog",
                 "Deep dives into historical events, people, and timelines."),
    CategorySeed("Marketing/SEO Blog",
                 "Digital marketing strategies, content SEO, analytics, advertising tips."),
    CategorySeed("Nonprofit/Cause Blog",
                 "Promote social good, awareness, fundraising, or volunteering opportunities."),
    CategorySeed("Startup/Entrepreneur Blog",
                 "Building a business, startup journeys, fundraising, and innovation strategies.")
  ]

  /** The table's `name` column is declared unique. */
  predicate UniqueNames(table: seq<Category>) {
    forall i, j :: 0 <= i < j < |table| ==> table[i].name != table[j].name
  }

  predicate UniqueIds(table: seq<Category>) {
    forall i, j :: 0 <= i < j < |table| ==> table[i].id != table[j].id
  }

  /** The rows inserted into an empty table: rowids 1, 2, ... in list order. */
  function SeedRows(): (r: seq<Category>)
    ensures |r| == |CATEGORIES|
    ensures forall i :: 0 <= i < |r| ==>
      r[i].id == i + 1 && r[i].name == CATEGORIES[i].name && r[i].description == CATEGORIES[i].description
  {
    seq(|CATEGORIES|, i requires 0 <= i < |CATEGORIES| =>
      Category(i + 1, CATEGORIES[i].name, CATEGORIES[i].description))
  }

  /** `seed_categories`: fills the table only when it is empty. */
  function Seed(table: seq<Category>): (r: seq<Category>)
    ensures |table| == 0 ==> r == SeedRows()
    ensures |table| > 0 ==> r == table
    ensures |r| > 0
  {
    if |table| == 0 then SeedRows() else table
  }

  /** No two entries of the list share a name. */
  lemma CategoryNamesDistinct()
    ensures forall i, j :: 0 <= i < j < |CATEGORIES| ==> CATEGORIES[i].name != CATEGORIES[j].name
  {
  }

  /** Seeding twice is seeding once. */
  lemma {:induction false} SeedIdempotent(table: seq<Category>)
    ensures Seed(Seed(table)) == Seed(table)
  {
  }

  /** Seeding keeps the table's uniqueness constraints. */
  lemma SeedKeepsUnique(table: seq<Category>)
    requires UniqueNames(table) && UniqueIds(table)
    ensures UniqueNames(Seed(table)) && UniqueIds(Seed(table))
  {
    if |table| == 0 {
      CategoryNamesDistinct();
    }
  }
}
