/** The project showcase section: its fixed catalogue of three projects and
    the carousel controller that the section mounts over it. The methods at
    the end are clients of the controller that replay example
    interactions with the section step by step. */
module Projects {
  import opened Carousel

  /** The icons a technology badge can carry. */
  datatype Icon = Code2 | Server | Database | Smartphone

  datatype Technology = Technology(name: string, icon: Icon)

  datatype Stats = Stats(users: string, revenue: string)

  /** One showcased project; the controller never changes it. */
  datatype Project = Project(
    title: string,
    description: string,
    image: string,
    technologies: seq<Technology>,
    stats: Stats)

  const Catalog: seq<Project> := [
    Project(
      "E-Commerce Platform",
      "A comprehensive online shopping solution with advanced product management, secure payment processing, real-time inventory tracking, and personalized user experiences.",
      "/project-ecommerce.jpg",
      [Technology("React", Code2), Technology("Node.js", Server), Technology("MongoDB", Database)],
      Stats("50K+", "+150%")),
    Project(
      "Corporate Website",
      "A professional website for a leading corporation featuring modern design, CMS integration, multi-language support, and advanced analytics dashboard.",
      "/project-corporate.jpg",
      [Technology("Next.js", Code2), Technology("PostgreSQL", Database), Technology("AWS", Server)],
      Stats("100K+", "+200%")),
    Project(
      "Mobile Application",
      "A user-friendly mobile app for a service-based business with real-time notifications, in-app messaging, appointment booking, and payment integration.",
      "/project-mobile.jpg",
      [Technology("Flutter", Smartphone), Technology("Firebase", Database), Technology("REST API", Server)],
      Stats("25K+", "+120%"))
  ]

  /** Mounting the section: the first project is shown and no transition is
      in flight; index 0 is valid because the catalogue has three entries. */
  method Mount() returns (size: nat, index: nat, animating: bool, title: string)
    ensures size == 3 && index == 0 && !animating
    ensures title == "E-Commerce Platform"
  {
    var c := new Controller(Catalog);
    size, index, animating := |c.items|, c.activeIndex, c.animating;
    title := c.ActiveItem().title;
  }

  /** From the first project the left arrow wraps to the last one; after the
      release, the right arrow wraps from the last back to the first. */
  method WrapAround() returns (afterPrev: nat, afterNext: nat)
    ensures afterPrev == 2 && afterNext == 0
  {
    var c := new Controller(Catalog);
    c.Prev();
    afterPrev := c.activeIndex;
    c.EndCooldown();
    c.Next();
    afterNext := c.activeIndex;
  }

  /** A second right-arrow click inside the cooldown is dropped; once the
      release has run, a third click moves on. */
  method Lockout() returns (first: nat, second: nat, third: nat)
    ensures first == 1 && second == 1 && third == 2
  {
    var c := new Controller(Catalog);
    c.Next();
    first := c.activeIndex;
    c.Next();
    second := c.activeIndex;
    c.EndCooldown();
    c.Next();
    third := c.activeIndex;
  }

  /** Clicking the dot of the project already shown still takes the lock, so
      an arrow click right after it is dropped. */
  method ReselectLocks() returns (index: nat, animating: bool)
    ensures index == 0 && animating
  {
    var c := new Controller(Catalog);
    c.JumpTo(0);
    c.Next();
    index, animating := c.activeIndex, c.animating;
  }
}
