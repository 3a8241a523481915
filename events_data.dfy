/**
 * The society's event catalog: the `Event` record, the fixed list of events
 * in declaration order, and the four queries the pages use to read it.
 */
module EventsData {
  import opened Wrappers
  import opened Sequences

  /** The three registration states; only `Completed` marks a past event. */
  datatype Status = RegistrationOpen | RegistrationClosed | Completed

  /** The display tag of an event. */
  datatype Category = Hackathon | Workshop | Panel | Social | Other

  datatype Details = Details(
    eligibility: Option<string> := None,
    teamSize: Option<string> := None,
    prizes: Option<string> := None,
    food: Option<string> := None)

  datatype ScheduleItem = ScheduleItem(time: string, title: string, description: string)

  datatype FaqItem = FaqItem(question: string, answer: string)

  datatype Winner = Winner(place: string, team: string, project: string, description: string)

  /**
   * One catalog entry. Optional fields of the TypeScript interface are
   * `Option`s, defaulting to `None` when an entry leaves them out. Dates,
   * times and capacities are free text and are never interpreted.
   */
  datatype Event = Event(
    id: string,
    title: string,
    tagline: Option<string> := None,
    description: string,
    longDescription: Option<string> := None,
    date: string,
    time: Option<string> := None,
    location: string,
    capacity: Option<string> := None,
    status: Status,
    category: Category,
    registrationLink: Option<string> := None,
    details: Option<Details> := None,
    schedule: Option<seq<ScheduleItem>> := None,
    faq: Option<seq<FaqItem>> := None,
    highlights: Option<seq<string>> := None,
    winners: Option<seq<Winner>> := None)

  /** The string each status is written as in the catalog. */
  function StatusLabel(s: Status): string {
    match s
    case RegistrationOpen => "registration-open"
    case RegistrationClosed => "registration-closed"
    case Completed => "completed"
  }

  /** Distinct statuses are written differently, so comparing labels compares statuses. */
  lemma StatusLabelInjective(a: Status, b: Status)
    ensures StatusLabel(a) == StatusLabel(b) <==> a == b
  {
    if a != b {
      assert |StatusLabel(a)| != |StatusLabel(b)|;
    }
  }

  /** The catalog, in declaration order; each entry is spelled out below. */
  const Events: seq<Event> := [HackML2026, HackML2025, DeepLearningWorkshop2026, IndustryPanelSpring2026]

  const HackML2026: Event := Event(
    id := "hackml-2026",
    title := "HackML 2026",
    tagline := Some("Build the Future with Machine Learning"),
    description := "HackML 2026 is the first machine-learning-focused hackathon at SFU, where teams attempt to construct the best ML-models for each given question.",
    longDescription := Some("Join us for an intensive 12-hour hackathon focused on machine learning and artificial intelligence. Whether you're a beginner or an experienced ML practitioner, HackML offers opportunities to learn, collaborate, and innovate. Work in teams of up to 4 people to develop ML-powered applications, receive mentorship from industry professionals, and compete for small prizes."),
    date := "January 31st, 2026",
    time := Some("8:30 AM - 8:30 PM"),
    location := "SFU Burnaby Campus - SUB Ballroom",
    capacity := Some("125 participants"),
    status := RegistrationOpen,
    category := Hackathon,
    registrationLink := Some("https://portal-hackml.vercel.app/"),
    details := Some(Details(
      eligibility := Some("Open to all SFU students and students from other universities. All skill levels welcome."),
      teamSize := Some("Teams of 1-4 people. Register individually, and use the team code to add members to your team. Team formation will be done through Discord."),
      prizes := Some("$200 in small prizes for winning teams."),
      food := Some("Meals and beverages provided throughout the event."))),
    schedule := Some([
      ScheduleItem("8:30 AM", "Check-ins", "Participant check-in"),
      ScheduleItem("9:00 AM", "Opening Ceremony", "Welcome, agenda, rules, and team formation"),
      ScheduleItem("9:30 AM", "Competition Begins", "Datasets and problems released for teams"),
      ScheduleItem("12:00 PM", "Lunch", "Sushi from T&T - Limit 8 per person (until further notice)"),
      ScheduleItem("3:00 PM", "Mid-point Check-ins", "Brief progress update and Q&A session with competition organizers"),
      ScheduleItem("6:00 PM", "Final Submission Deadline", "All model submissions must be completed and submitted through Kaggle by this time"),
      ScheduleItem("6:15 PM", "Dinner + Networking", "Pizza from Dominoes, and open networking with industry professionals and DSSS executives."),
      ScheduleItem("8:15 PM", "Result + Prizes + Closing Ceremony", "Prizes awarded + Judges gifts + Group photo")]),
    faq := Some([
      FaqItem("Do I need ML experience?",
        "No! We welcome all skill levels. We'll have workshops and mentors to help beginners get started with machine learning."),
      FaqItem("What should I bring?",
        "Bring your laptop, charger, and any other devices you need. We'll provide food, drinks, and workspace."),
      FaqItem("Can I work alone?",
        "Yes! You can participate individually or in teams of up to 4 people. We'll also have a team formation session."),
      FaqItem("Is there a registration fee?",
        "No, HackML is completely free to attend. All meals and resources are provided.")]))

  const HackML2025: Event := Event(
    id := "hackml-2025",
    title := "HackML 2025",
    tagline := Some("Our Inaugural ML Hackathon"),
    description := "The first-ever HackML hackathon with 80+ participants and 15 amazing project submissions.",
    longDescription := Some("HackML 2025 was our inaugural machine learning hackathon that brought together over 80 students from SFU and surrounding universities. Participants worked on diverse ML projects ranging from image classification to natural language processing."),
    date := "January 20-21, 2025",
    time := Some("24 hours"),
    location := "SFU Burnaby Campus",
    status := Completed,
    category := Hackathon,
    highlights := Some([
      "80+ participants from 5 universities",
      "15 project submissions",
      "8 industry mentors",
      "$3,000 in prizes awarded"]),
    winners := Some([
      Winner("1st Place", "Team DataMinds", "AI-Powered Study Assistant",
        "An ML model that generates personalized study materials and practice questions."),
      Winner("2nd Place", "Neural Navigators", "Campus Traffic Predictor",
        "Real-time prediction of campus foot traffic using computer vision."),
      Winner("3rd Place", "Code Crunchers", "Mental Health Chatbot",
        "NLP-based chatbot for student mental health support.")]))

  const DeepLearningWorkshop2026: Event := Event(
    id := "deep-learning-workshop-2026",
    title := "Deep Learning Workshop Series",
    description := "A comprehensive 6-week workshop series covering neural networks, CNNs, RNNs, and transformer architectures. Perfect for beginners and intermediate learners.",
    date := "March - April 2026",
    location := "Hybrid (In-person & Online)",
    status := RegistrationClosed,
    category := Workshop)

  const IndustryPanelSpring2026: Event := Event(
    id := "industry-panel-spring-2026",
    title := "Data Science Career Panel",
    description := "Hear from data science professionals about their career journeys, industry insights, and practical advice for students entering the field.",
    date := "February 2026",
    location := "TBA",
    status := RegistrationClosed,
    category := Panel)

  /** The filter predicate of the upcoming query: the status is not written "completed". */
  predicate IsUpcoming(e: Event) {
    StatusLabel(e.status) != "completed"
  }

  /** The filter predicate of the past query: the status is written "completed". */
  predicate IsPast(e: Event) {
    StatusLabel(e.status) == "completed"
  }

  /** The lookup predicate of `GetEventById`. */
  predicate HasId(id: string, e: Event) {
    e.id == id
  }

  /** `getAllEvents`: the whole catalog, in declaration order. */
  function GetAllEvents(): (r: seq<Event>)
    ensures r == Events
  {
    Events
  }

  /** `getEventById`: the first catalog event whose id is `id`, if any. */
  function GetEventById(id: string): (r: Option<Event>)
    ensures r.None? <==> forall i :: 0 <= i < |Events| ==> Events[i].id != id
    ensures r.Some? ==> r.value in Events && r.value.id == id
  {
    Find(Events, e => HasId(id, e))
  }

  /** `getUpcomingEvents`: catalog events not completed, in catalog order. */
  function GetUpcomingEvents(): (r: seq<Event>)
    ensures forall k :: 0 <= k < |r| ==> r[k] in Events && r[k].status != Completed
    ensures forall k :: 0 <= k < |Events| && Events[k].status != Completed ==> Events[k] in r
    ensures IsSubsequence(r, Events)
  {
    UpcomingFilter(Events);
    Filter(Events, IsUpcoming)
  }

  /** `getPastEvents`: completed catalog events, in catalog order. */
  function GetPastEvents(): (r: seq<Event>)
    ensures forall k :: 0 <= k < |r| ==> r[k] in Events && r[k].status == Completed
    ensures forall k :: 0 <= k < |Events| && Events[k].status == Completed ==> Events[k] in r
    ensures IsSubsequence(r, Events)
  {
    PastFilter(Events);
    Filter(Events, IsPast)
  }

  /**
   * The two filter predicates, read as statuses: upcoming means open or closed
   * for registration, past means completed, and no event is both.
   */
  lemma StatusPredicates()
    ensures forall e :: IsUpcoming(e) <==> e.status == RegistrationOpen || e.status == RegistrationClosed
    ensures forall e :: IsUpcoming(e) <==> e.status != Completed
    ensures forall e :: IsPast(e) <==> e.status == Completed
  {
    forall e ensures IsUpcoming(e) <==> e.status != Completed {
      StatusLabelInjective(e.status, Completed);
    }
  }

  /** Over any list of events, the upcoming filter keeps exactly the events not completed, each as often as it occurs, in order. */
  lemma UpcomingFilter(s: seq<Event>)
    ensures forall k :: 0 <= k < |Filter(s, IsUpcoming)| ==>
      Filter(s, IsUpcoming)[k] in s && Filter(s, IsUpcoming)[k].status != Completed
    ensures forall k :: 0 <= k < |s| && s[k].status != Completed ==> s[k] in Filter(s, IsUpcoming)
    ensures IsSubsequence(Filter(s, IsUpcoming), s)
    ensures forall x :: multiset(Filter(s, IsUpcoming))[x] == if x.status != Completed then multiset(s)[x] else 0
  {
    StatusPredicates();
    FilterIsSubsequence(s, IsUpcoming);
    forall x ensures multiset(Filter(s, IsUpcoming))[x] == if x.status != Completed then multiset(s)[x] else 0 {
      FilterMultiplicity(s, IsUpcoming, x);
    }
  }

  /** Over any list of events, the past filter keeps exactly the completed events, each as often as it occurs, in order. */
  lemma PastFilter(s: seq<Event>)
    ensures forall k :: 0 <= k < |Filter(s, IsPast)| ==>
      Filter(s, IsPast)[k] in s && Filter(s, IsPast)[k].status == Completed
    ensures forall k :: 0 <= k < |s| && s[k].status == Completed ==> s[k] in Filter(s, IsPast)
    ensures IsSubsequence(Filter(s, IsPast), s)
    ensures forall x :: multiset(Filter(s, IsPast))[x] == if x.status == Completed then multiset(s)[x] else 0
  {
    StatusPredicates();
    FilterIsSubsequence(s, IsPast);
    forall x ensures multiset(Filter(s, IsPast))[x] == if x.status == Completed then multiset(s)[x] else 0 {
      FilterMultiplicity(s, IsPast, x);
    }
  }

  /** A catalog event whose registration has closed is still upcoming, not past. */
  lemma RegistrationClosedIsUpcoming(e: Event)
    requires e in Events && e.status == RegistrationClosed
    ensures e in GetUpcomingEvents() && e !in GetPastEvents()
  {
    StatusPredicates();
  }

  /**
   * Over any list of events, the upcoming and past filters split it: each
   * event is kept by exactly one of them, and their sizes add up.
   */
  lemma StatusFiltersPartition(s: seq<Event>)
    ensures |Filter(s, IsUpcoming)| + |Filter(s, IsPast)| == |s|
    ensures multiset(Filter(s, IsUpcoming)) + multiset(Filter(s, IsPast)) == multiset(s)
    ensures forall e :: e in s ==> (e in Filter(s, IsUpcoming) <==> e !in Filter(s, IsPast))
  {
    StatusPredicates();
    FilterPartition(s, IsUpcoming, IsPast);
    forall e | e in s ensures e in Filter(s, IsUpcoming) || e in Filter(s, IsPast) {
      assert e in multiset(s);
    }
  }

  /** The upcoming and past queries split the catalog. */
  lemma UpcomingAndPastPartitionCatalog()
    ensures |GetUpcomingEvents()| + |GetPastEvents()| == |GetAllEvents()|
    ensures multiset(GetUpcomingEvents()) + multiset(GetPastEvents()) == multiset(GetAllEvents())
    ensures forall e :: e in GetAllEvents() ==> (e in GetUpcomingEvents() <==> e !in GetPastEvents())
  {
    StatusFiltersPartition(Events);
  }

  /** No two catalog entries share an id. */
  ghost predicate UniqueIds(s: seq<Event>) {
    forall i, j :: 0 <= i < j < |s| ==> s[i].id != s[j].id
  }

  /** In a catalog with unique ids, looking an event up by its own id finds it. */
  lemma {:induction false} FindByUniqueId(s: seq<Event>, i: int)
    requires UniqueIds(s) && 0 <= i < |s|
    ensures Find(s, e => HasId(s[i].id, e)) == Some(s[i])
  {
    var p := e => HasId(s[i].id, e);
    assert IsFirstMatch(s, p, i);
    FindReturnsFirstMatch(s, p, i);
  }

  /** The catalog's four ids are pairwise distinct. */
  lemma CatalogIdsUnique()
    ensures UniqueIds(Events)
  {
    assert Events[0].id[7] == '2' && Events[1].id[7] == '2';
    assert Events[0].id[10] == '6' && Events[1].id[10] == '5';
    assert |Events[0].id| == 11 && |Events[2].id| == 27 && |Events[3].id| == 26;
  }

  /**
   * Lookup and membership agree: `GetEventById(id)` yields `e` exactly when `e`
   * is the catalog event with that id; every catalog event is found by its own id.
   */
  lemma GetEventByIdFindsCatalogEvent(id: string, e: Event)
    ensures GetEventById(id) == Some(e) <==> e in Events && e.id == id
    ensures e in Events ==> GetEventById(e.id) == Some(e)
  {
    CatalogIdsUnique();
    if e in Events {
      var i :| 0 <= i < |Events| && Events[i] == e;
      FindByUniqueId(Events, i);
    }
  }

  /** The first lookup match is returned: the general `Array.find` property on the catalog. */
  lemma GetEventByIdReturnsFirst(id: string, i: int)
    requires 0 <= i < |Events| && Events[i].id == id
    requires forall j :: 0 <= j < i ==> Events[j].id != id
    ensures GetEventById(id) == Some(Events[i])
  {
    FindReturnsFirstMatch(Events, e => HasId(id, e), i);
  }

  /** "hackml-2026" is open for registration: found, upcoming and not past. */
  lemma HackML2026IsUpcoming()
    ensures GetEventById("hackml-2026").Some?
    ensures GetEventById("hackml-2026").value.status == RegistrationOpen
    ensures GetEventById("hackml-2026").value in GetUpcomingEvents()
    ensures GetEventById("hackml-2026").value !in GetPastEvents()
  {
    GetEventByIdFindsCatalogEvent("hackml-2026", Events[0]);
    StatusPredicates();
  }

  /** "hackml-2025" is completed: found, past and not upcoming. */
  lemma HackML2025IsPast()
    ensures GetEventById("hackml-2025").Some?
    ensures GetEventById("hackml-2025").value.status == Completed
    ensures GetEventById("hackml-2025").value in GetPastEvents()
    ensures GetEventById("hackml-2025").value !in GetUpcomingEvents()
  {
    GetEventByIdFindsCatalogEvent("hackml-2025", Events[1]);
    StatusPredicates();
  }

  /** An id that no event carries is absent, not an error. */
  lemma UnknownIdIsAbsent()
    ensures GetEventById("nonexistent") == None
  {
    var ids := [Events[0].id, Events[1].id, Events[2].id, Events[3].id];
    assert ids == ["hackml-2026", "hackml-2025", "deep-learning-workshop-2026", "industry-panel-spring-2026"];
    assert forall i :: 0 <= i < |ids| ==> ids[i][0] != 'n';
  }

  /** The exact results of the two range queries on this catalog. */
  lemma CatalogQueryResults()
    ensures GetUpcomingEvents() == [Events[0], Events[2], Events[3]]
    ensures GetPastEvents() == [Events[1]]
  {
    FourStatusesSplit(Events);
  }

  /** The two filters on four events whose statuses are laid out as in the catalog. */
  lemma FourStatusesSplit(s: seq<Event>)
    requires |s| == 4 && s[1].status == Completed
    requires s[0].status != Completed && s[2].status != Completed && s[3].status != Completed
    ensures Filter(s, IsUpcoming) == [s[0], s[2], s[3]]
    ensures Filter(s, IsPast) == [s[1]]
  {
    StatusLabelInjective(s[0].status, Completed);
    StatusLabelInjective(s[2].status, Completed);
    StatusLabelInjective(s[3].status, Completed);
    assert IsUpcoming(s[0]) && !IsUpcoming(s[1]) && IsUpcoming(s[2]) && IsUpcoming(s[3]);
    assert !IsPast(s[0]) && IsPast(s[1]) && !IsPast(s[2]) && !IsPast(s[3]);
    FilterOfFour(s, IsUpcoming);
    FilterOfFour(s, IsPast);
  }

  /**
   * An observation about this catalog, which the `Event` type does not enforce:
   * highlights and winners appear only on completed events; a registration
   * link, details, a schedule and a FAQ only on events that are not completed.
   */
  lemma CatalogFollowsFieldConvention(e: Event)
    requires e in Events
    ensures e.highlights.Some? || e.winners.Some? ==> e.status == Completed
    ensures e.registrationLink.Some? || e.details.Some? || e.schedule.Some? || e.faq.Some? ==> e.status != Completed
  {
  }
}
