/** The morning briefing of the assistant's digital suite: describing WMO weather
    codes, assembling the briefing record from the included sections, and rendering
    it as text for the language model. The weather, news and stock fetches, the
    system measurement and the calendar call are outside the model: what each
    produced arrives as an input. */
module Briefing {
  import opened Wrappers
  import opened Strings
  import SystemOps
  import Productivity

  // ---------------------------------------------------------------- weather codes

  /** A group of WMO weather interpretation codes sharing one description. */
  datatype CodeGroup = CodeGroup(codes: set<int>, desc: string)

  /** The listed groups, in the order `_weather_code_to_desc` tests them. */
  const CodeGroups: seq<CodeGroup> := [
    CodeGroup({0}, "clear"),
    CodeGroup({1, 2, 3}, "mainly clear to cloudy"),
    CodeGroup({45, 48}, "foggy"),
    CodeGroup({51, 53, 55, 56, 57}, "drizzle"),
    CodeGroup({61, 63, 65, 66, 67}, "rain"),
    CodeGroup({71, 73, 75, 77}, "snow"),
    CodeGroup({80, 81, 82}, "rain showers"),
    CodeGroup({85, 86}, "snow showers"),
    CodeGroup({95, 96, 99}, "thunderstorm")
  ]

  const Unlisted := "variable"

  /** The ten descriptions a code can receive. */
  const Descriptions: set<string> := {
    "clear", "mainly clear to cloudy", "foggy", "drizzle", "rain", "snow",
    "rain showers", "snow showers", "thunderstorm", "variable"
  }

  /** `_weather_code_to_desc`: total, and always one of the ten descriptions. */
  function WeatherDesc(code: int): (r: string)
    ensures r in Descriptions
  {
    if code == 0 then "clear"
    else if code in {1, 2, 3} then "mainly clear to cloudy"
    else if code in {45, 48} then "foggy"
    else if code in {51, 53, 55, 56, 57} then "drizzle"
    else if code in {61, 63, 65, 66, 67} then "rain"
    else if code in {71, 73, 75, 77} then "snow"
    else if code in {80, 81, 82} then "rain showers"
    else if code in {85, 86} then "snow showers"
    else if code in {95, 96, 99} then "thunderstorm"
    else Unlisted
  }

  /** No code is listed in two groups. */
  lemma CodeGroupsDisjoint()
    ensures forall i, j :: 0 <= i < j < |CodeGroups| ==> CodeGroups[i].codes !! CodeGroups[j].codes
  {
  }

  /** A listed code receives exactly its group's description. */
  lemma WeatherDescOfGroupAt(k: int, code: int)
    requires 0 <= k < |CodeGroups| && code in CodeGroups[k].codes
    ensures WeatherDesc(code) == CodeGroups[k].desc
  {
    if k < 4 {
      WeatherDescOfEarlyGroup(k, code);
    } else {
      WeatherDescOfLateGroup(k, code);
    }
  }

  lemma WeatherDescOfEarlyGroup(k: int, code: int)
    requires 0 <= k < 4 && code in CodeGroups[k].codes
    ensures WeatherDesc(code) == CodeGroups[k].desc
  {
    if k == 0 {
    } else if k == 1 {
    } else if k == 2 {
    } else {
    }
  }

  lemma WeatherDescOfLateGroup(k: int, code: int)
    requires 4 <= k < |CodeGroups| && code in CodeGroups[k].codes
    ensures WeatherDesc(code) == CodeGroups[k].desc
  {
    if k == 4 {
    } else if k == 5 {
    } else if k == 6 {
    } else if k == 7 {
    } else {
    }
  }

  lemma WeatherDescOfGroup(g: CodeGroup, code: int)
    requires g in CodeGroups && code in g.codes
    ensures WeatherDesc(code) == g.desc
  {
    var k :| 0 <= k < |CodeGroups| && CodeGroups[k] == g;
    WeatherDescOfGroupAt(k, code);
  }

  /** "variable" is the description of exactly the codes no group lists. */
  lemma WeatherDescUnlisted(code: int)
    ensures WeatherDesc(code) == Unlisted <==> forall g :: g in CodeGroups ==> code !in g.codes
  {
    if WeatherDesc(code) != Unlisted {
      var k := if code == 0 then 0
        else if code in {1, 2, 3} then 1
        else if code in {45, 48} then 2
        else if code in {51, 53, 55, 56, 57} then 3
        else if code in {61, 63, 65, 66, 67} then 4
        else if code in {71, 73, 75, 77} then 5
        else if code in {80, 81, 82} then 6
        else if code in {85, 86} then 7
        else 8;
      assert code in CodeGroups[k].codes;
    } else {
      forall g | g in CodeGroups ensures code !in g.codes {
        var k :| 0 <= k < |CodeGroups| && CodeGroups[k] == g;
        if code in g.codes {
          WeatherDescOfGroupAt(k, code);
          assert false;
        }
      }
    }
  }

  /** Reference lookup: the description of the first group in `order` listing the code. */
  function FirstMatch(order: seq<CodeGroup>, code: int): string {
    if |order| == 0 then Unlisted
    else if code in order[0].codes then order[0].desc
    else FirstMatch(order[1..], code)
  }

  lemma {:induction false} FirstMatchOfListedGroups(order: seq<CodeGroup>, code: int)
    requires forall k :: 0 <= k < |order| ==> order[k] in CodeGroups
    ensures FirstMatch(order, code) ==
      if exists k :: 0 <= k < |order| && code in order[k].codes then WeatherDesc(code) else Unlisted
    decreases |order|
  {
    if |order| > 0 {
      if code in order[0].codes {
        WeatherDescOfGroup(order[0], code);
      } else {
        FirstMatchOfListedGroups(order[1..], code);
        assert forall k :: 1 <= k < |order| ==> order[k] == order[1..][k - 1];
      }
    }
  }

  /** Because the groups are disjoint, the order in which they are checked does not
      matter: looking the code up in any arrangement of the groups gives `WeatherDesc`. */
  lemma WeatherDescAnyOrder(order: seq<CodeGroup>, code: int)
    requires multiset(order) == multiset(CodeGroups)
    ensures FirstMatch(order, code) == WeatherDesc(code)
  {
    forall k | 0 <= k < |order| ensures order[k] in CodeGroups {
      assert order[k] in multiset(order);
    }
    FirstMatchOfListedGroups(order, code);
    WeatherDescUnlisted(code);
    if WeatherDesc(code) != Unlisted {
      var g :| g in CodeGroups && code in g.codes;
      assert g in multiset(order);
      var k :| 0 <= k < |order| && order[k] == g;
    }
  }

  // ---------------------------------------------------------------- the briefing record

  /** A weather record: the fetch error, or a reading with its pre-rendered Fahrenheit
      temperature and (when present) its description. */
  datatype Weather = WeatherFailed(error: string) | WeatherReading(temperatureF: string, desc: Option<string>)

  /** A headline `{title, link}`; only the title is rendered. */
  datatype Headline = Headline(title: Option<string>)

  /** A stock entry: the fetch error, or a quote with pre-rendered price and signed,
      one-decimal change percentage (`None` when the change was not computed). */
  datatype Stock = StockFailed(symbol: string, error: string)
                 | StockQuote(symbol: string, price: Option<string>, changePct: Option<string>)

  /** The six-key record `get_briefing` returns; a `None` field is a `None` value. */
  datatype Briefing = Briefing(
    weather: Option<Weather>,
    system: Option<SystemOps.Status>,
    systemSpeech: Option<string>,
    news: Option<seq<Headline>>,
    stocks: Option<seq<Stock>>,
    calendarSpeech: Option<string>)

  /** The include-flags of `get_briefing`. */
  datatype Flags = Flags(weather: bool, system: bool, news: bool, stocks: bool, calendar: bool)

  const DefaultFlags := Flags(true, true, false, false, true)

  /** What each fetcher produced. The schedule fetch may raise. */
  datatype Sources = Sources(
    weather: Weather,
    status: SystemOps.Status,
    schedule: Outcome<Productivity.Schedule>,
    news: seq<Headline>,
    stocks: seq<Stock>)

  /** The calendar section: `None` when fetching or formatting the schedule raised, the
      (never empty) schedule speech otherwise. */
  function CalendarSpeech(schedule: Outcome<Productivity.Schedule>): (r: Option<string>)
    ensures schedule.Raised? ==> r.None?
    ensures schedule.Returned? ==> r == Productivity.FormatSchedule(schedule.value)
    ensures r.Some? ==> r.value != ""
  {
    match schedule
    case Raised(_) => None
    case Returned(s) => Productivity.FormatSchedule(s)
  }

  /** `get_briefing`: every excluded section stays `None`; the spoken system text is
      always the rendering of the stored status; a failing calendar leaves only the
      calendar section empty. */
  function GetBriefing(flags: Flags, src: Sources): (b: Briefing)
    ensures b.weather == (if flags.weather then Some(src.weather) else None)
    ensures b.system == (if flags.system then Some(src.status) else None)
    ensures b.system.Some? <==> b.systemSpeech.Some?
    ensures b.system.Some? ==> b.systemSpeech == Some(SystemOps.FormatStatus(b.system.value))
    ensures b.news == (if flags.news then Some(src.news) else None)
    ensures b.stocks == (if flags.stocks then Some(src.stocks) else None)
    ensures !flags.calendar || src.schedule.Raised? ==> b.calendarSpeech.None?
    ensures flags.calendar && src.schedule.Returned? ==>
      b.calendarSpeech == Productivity.FormatSchedule(src.schedule.value)
  {
    Briefing(
      if flags.weather then Some(src.weather) else None,
      if flags.system then Some(src.status) else None,
      if flags.system then Some(SystemOps.FormatStatus(src.status)) else None,
      if flags.news then Some(src.news) else None,
      if flags.stocks then Some(src.stocks) else None,
      if flags.calendar then CalendarSpeech(src.schedule) else None)
  }

  // ---------------------------------------------------------------- rendering

  datatype Section = WeatherSection | CalendarSection | SystemSection | NewsSection | StocksSection

  /** The rendering order of the sections. */
  const SectionOrder: seq<Section> := [WeatherSection, CalendarSection, SystemSection, NewsSection, StocksSection]

  function Rank(s: Section): nat {
    match s
    case WeatherSection => 0
    case CalendarSection => 1
    case SystemSection => 2
    case NewsSection => 3
    case StocksSection => 4
  }

  /** Whether a section's field is truthy. A weather record is never an empty dict. */
  predicate Contributes(b: Briefing, s: Section) {
    match s
    case WeatherSection => b.weather.Some?
    case CalendarSection => Truthy(b.calendarSpeech)
    case SystemSection => Truthy(b.systemSpeech)
    case NewsSection => b.news.Some? && b.news.value != []
    case StocksSection => b.stocks.Some? && b.stocks.value != []
  }

  /** The weather line: the error form, or temperature and description ("unknown"
      when absent). */
  function WeatherLine(w: Weather): (r: string)
    ensures IsPrefix("Weather: ", r)
    ensures w.WeatherFailed? ==> r == "Weather: Unable to fetch (" + w.error + ")."
    ensures w.WeatherReading? ==> r == "Weather: " + w.temperatureF + "°F, " + w.desc.GetOr("unknown") + "."
  {
    match w
    case WeatherFailed(e) => "Weather: Unable to fetch (" + e + ")."
    case WeatherReading(t, d) => "Weather: " + t + "°F, " + d.GetOr("unknown") + "."
  }

  const HeadlinesHeader := "Top headlines:"

  /** The headline lines: the header, then at most three titles numbered from 1. */
  function HeadlineLines(news: seq<Headline>): (r: seq<string>)
    ensures |r| == 1 + (if |news| < 3 then |news| else 3)
    ensures r[0] == HeadlinesHeader
    ensures forall k :: 1 <= k < |r| ==> r[k] == "  " + NatToString(k) + ". " + news[k - 1].title.GetOr("")
  {
    var shown := if |news| < 3 then news else news[..3];
    [HeadlinesHeader] + seq(|shown|, i requires 0 <= i < |shown| => "  " + NatToString(i + 1) + ". " + shown[i].title.GetOr(""))
  }

  /** One stock line; the change suffix appears only when a change was computed. */
  function StockLine(s: Stock): (r: string)
    ensures IsPrefix("Stock " + s.symbol + ": ", r)
    ensures s.StockFailed? ==> r == "Stock " + s.symbol + ": " + s.error
    ensures s.StockQuote? && s.changePct.None? ==> r == "Stock " + s.symbol + ": $" + s.price.GetOr("?")
    ensures s.StockQuote? && s.changePct.Some? ==>
      r == "Stock " + s.symbol + ": $" + s.price.GetOr("?") + ", " + s.changePct.value + "%"
  {
    match s
    case StockFailed(sym, e) => "Stock " + sym + ": " + e
    case StockQuote(sym, price, pct) =>
      var pctText := if pct.Some? then ", " + pct.value + "%" else "";
      "Stock " + sym + ": $" + price.GetOr("?") + pctText
  }

  /** The lines one section contributes; empty exactly when the field is falsy. */
  function SectionLines(b: Briefing, s: Section): (r: seq<string>)
    ensures r != [] <==> Contributes(b, s)
    ensures s == WeatherSection && b.weather.Some? ==> r == [WeatherLine(b.weather.value)]
    ensures s == CalendarSection && Truthy(b.calendarSpeech) ==> r == [b.calendarSpeech.value]
    ensures s == SystemSection && Truthy(b.systemSpeech) ==> r == ["System: " + b.systemSpeech.value]
    ensures s == NewsSection && Contributes(b, s) ==> r == HeadlineLines(b.news.value)
    ensures s == StocksSection && b.stocks.Some? ==>
      |r| == |b.stocks.value| && forall i :: 0 <= i < |r| ==> r[i] == StockLine(b.stocks.value[i])
  {
    match s
    case WeatherSection => if b.weather.Some? then [WeatherLine(b.weather.value)] else []
    case CalendarSection => if Truthy(b.calendarSpeech) then [b.calendarSpeech.value] else []
    case SystemSection => if Truthy(b.systemSpeech) then ["System: " + b.systemSpeech.value] else []
    case NewsSection => if b.news.Some? && b.news.value != [] then HeadlineLines(b.news.value) else []
    case StocksSection =>
      if b.stocks.Some? then seq(|b.stocks.value|, i requires 0 <= i < |b.stocks.value| => StockLine(b.stocks.value[i]))
      else []
  }

  /** A rendered line together with the section it came from. */
  datatype Part = Part(section: Section, text: string)

  predicate InSectionOrder(ps: seq<Part>) {
    forall i, j :: 0 <= i < j < |ps| ==> Rank(ps[i].section) <= Rank(ps[j].section)
  }

  predicate StrictlyRanked(secs: seq<Section>) {
    forall i, j :: 0 <= i < j < |secs| ==> Rank(secs[i]) < Rank(secs[j])
  }

  function Tagged(s: Section, lines: seq<string>): (r: seq<Part>)
    ensures |r| == |lines|
    ensures forall k :: 0 <= k < |r| ==> r[k] == Part(s, lines[k])
  {
    seq(|lines|, k requires 0 <= k < |lines| => Part(s, lines[k]))
  }

  /** The parts of the given sections, section after section. */
  function PartsOf(b: Briefing, secs: seq<Section>): seq<Part>
    decreases |secs|
  {
    if |secs| == 0 then [] else Tagged(secs[0], SectionLines(b, secs[0])) + PartsOf(b, secs[1..])
  }

  predicate HasPart(ps: seq<Part>, s: Section) {
    exists k :: 0 <= k < |ps| && ps[k].section == s
  }

  lemma HasPartAppend(a: seq<Part>, c: seq<Part>, s: Section)
    ensures HasPart(a + c, s) <==> HasPart(a, s) || HasPart(c, s)
  {
    if HasPart(a, s) {
      var k :| 0 <= k < |a| && a[k].section == s;
      assert (a + c)[k] == a[k];
    }
    if HasPart(c, s) {
      var k :| 0 <= k < |c| && c[k].section == s;
      assert (a + c)[|a| + k] == c[k];
    }
    if HasPart(a + c, s) {
      var k :| 0 <= k < |a + c| && (a + c)[k].section == s;
      if k < |a| {
        assert a[k] == (a + c)[k];
      } else {
        assert c[k - |a|] == (a + c)[k];
      }
    }
  }

  /** Every part of the given sections comes from one of them. */
  lemma {:induction false} PartsOfFrom(b: Briefing, secs: seq<Section>)
    ensures forall k :: 0 <= k < |PartsOf(b, secs)| ==> PartsOf(b, secs)[k].section in secs
    decreases |secs|
  {
    if |secs| > 0 {
      var head: seq<Part> := Tagged(secs[0], SectionLines(b, secs[0]));
      var tail: seq<Part> := PartsOf(b, secs[1..]);
      PartsOfFrom(b, secs[1..]);
      assert PartsOf(b, secs) == head + tail;
      forall k | 0 <= k < |head + tail| ensures (head + tail)[k].section in secs {
        if k >= |head| {
          assert (head + tail)[k] == tail[k - |head|];
          assert tail[k - |head|].section in secs[1..];
        }
      }
    }
  }

  /** Rendering sections in strictly increasing rank yields parts in section order. */
  lemma {:induction false} PartsOfOrdered(b: Briefing, secs: seq<Section>)
    requires StrictlyRanked(secs)
    ensures InSectionOrder(PartsOf(b, secs))
    decreases |secs|
  {
    if |secs| > 0 {
      var head: seq<Part> := Tagged(secs[0], SectionLines(b, secs[0]));
      var tail: seq<Part> := PartsOf(b, secs[1..]);
      PartsOfOrdered(b, secs[1..]);
      PartsOfFrom(b, secs[1..]);
      assert PartsOf(b, secs) == head + tail;
      forall k | 0 <= k < |tail| ensures Rank(secs[0]) < Rank(tail[k].section) {
        var j :| 0 <= j < |secs[1..]| && secs[1..][j] == tail[k].section;
        assert secs[1..][j] == secs[j + 1];
      }
      forall i, j | 0 <= i < j < |head + tail|
        ensures Rank((head + tail)[i].section) <= Rank((head + tail)[j].section)
      {
        if j < |head| {
        } else if i < |head| {
          assert (head + tail)[j] == tail[j - |head|];
        } else {
          assert (head + tail)[i] == tail[i - |head|];
          assert (head + tail)[j] == tail[j - |head|];
        }
      }
    }
  }

  lemma HasPartTagged(sec: Section, lines: seq<string>, s: Section)
    ensures HasPart(Tagged(sec, lines), s) <==> s == sec && lines != []
  {
    if s == sec && lines != [] {
      assert Tagged(sec, lines)[0].section == s;
    }
  }

  /** A section among the rendered ones has a part exactly when it contributes. */
  lemma {:induction false} PartsOfPresent(b: Briefing, secs: seq<Section>, s: Section)
    requires s in secs
    ensures Contributes(b, s) <==> HasPart(PartsOf(b, secs), s)
    decreases |secs|
  {
    var head: seq<Part> := Tagged(secs[0], SectionLines(b, secs[0]));
    var tail: seq<Part> := PartsOf(b, secs[1..]);
    assert PartsOf(b, secs) == head + tail;
    HasPartAppend(head, tail, s);
    HasPartTagged(secs[0], SectionLines(b, secs[0]), s);
    if s in secs[1..] {
      PartsOfPresent(b, secs[1..], s);
    } else {
      assert s == secs[0];
      if HasPart(tail, s) {
        PartsOfFrom(b, secs[1..]);
        assert false;
      }
    }
  }

  /** The parts of `format_briefing_for_model`: sections in the fixed order weather,
      calendar, system, headlines, stocks, and a section present exactly when it
      contributes. */
  function Parts(b: Briefing): (r: seq<Part>)
    ensures InSectionOrder(r)
    ensures forall s :: Contributes(b, s) <==> HasPart(r, s)
    ensures Texts(r) == SectionLines(b, WeatherSection) + (SectionLines(b, CalendarSection)
      + (SectionLines(b, SystemSection) + (SectionLines(b, NewsSection) + SectionLines(b, StocksSection))))
  {
    assert StrictlyRanked(SectionOrder);
    PartsOfOrdered(b, SectionOrder);
    AllSectionsPresent(b);
    PartsOfTexts(b, SectionOrder);
    LinesOfSectionOrder(b);
    PartsOf(b, SectionOrder)
  }

  lemma TextsAppend(a: seq<Part>, c: seq<Part>)
    ensures Texts(a + c) == Texts(a) + Texts(c)
  {
  }

  lemma TextsTagged(s: Section, lines: seq<string>)
    ensures Texts(Tagged(s, lines)) == lines
  {
  }

  /** The lines of the given sections, section after section. */
  function LinesOf(b: Briefing, secs: seq<Section>): seq<string>
    decreases |secs|
  {
    if |secs| == 0 then [] else SectionLines(b, secs[0]) + LinesOf(b, secs[1..])
  }

  /** Each part carries a line of its own section: the texts of the parts are the
      sections' lines, concatenated in section order. */
  lemma {:induction false} PartsOfTexts(b: Briefing, secs: seq<Section>)
    ensures Texts(PartsOf(b, secs)) == LinesOf(b, secs)
    decreases |secs|
  {
    if |secs| > 0 {
      var head: seq<Part> := Tagged(secs[0], SectionLines(b, secs[0]));
      var tail: seq<Part> := PartsOf(b, secs[1..]);
      assert PartsOf(b, secs) == head + tail;
      PartsOfTexts(b, secs[1..]);
      TextsAppend(head, tail);
      TextsTagged(secs[0], SectionLines(b, secs[0]));
    }
  }

  lemma LinesOfCons(b: Briefing, s: Section, rest: seq<Section>)
    ensures LinesOf(b, [s] + rest) == SectionLines(b, s) + LinesOf(b, rest)
  {
    assert ([s] + rest)[1..] == rest;
  }

  lemma LinesOfSectionOrder(b: Briefing)
    ensures LinesOf(b, SectionOrder) == SectionLines(b, WeatherSection) + (SectionLines(b, CalendarSection)
      + (SectionLines(b, SystemSection) + (SectionLines(b, NewsSection) + SectionLines(b, StocksSection))))
  {
    LinesOfFive(b, WeatherSection, CalendarSection, SystemSection, NewsSection, StocksSection);
  }

  lemma LinesOfFive(b: Briefing, s1: Section, s2: Section, s3: Section, s4: Section, s5: Section)
    ensures LinesOf(b, [s1, s2, s3, s4, s5]) == SectionLines(b, s1) + (SectionLines(b, s2)
      + (SectionLines(b, s3) + (SectionLines(b, s4) + SectionLines(b, s5))))
  {
    LinesOfCons(b, s5, []);
    LinesOfCons(b, s4, [s5]);
    LinesOfCons(b, s3, [s4, s5]);
    LinesOfCons(b, s2, [s3, s4, s5]);
    LinesOfCons(b, s1, [s2, s3, s4, s5]);
    assert [s1, s2, s3, s4, s5] == [s1] + [s2, s3, s4, s5];
    assert [s2, s3, s4, s5] == [s2] + [s3, s4, s5];
    assert [s3, s4, s5] == [s3] + [s4, s5];
    assert [s4, s5] == [s4] + [s5];
    assert [s5] == [s5] + [];
    assert SectionLines(b, s5) + [] == SectionLines(b, s5);
  }

  lemma AllSectionsPresent(b: Briefing)
    ensures forall s :: Contributes(b, s) <==> HasPart(PartsOf(b, SectionOrder), s)
  {
    forall s: Section ensures Contributes(b, s) <==> HasPart(PartsOf(b, SectionOrder), s) {
      assert s in SectionOrder by {
        match s
        case WeatherSection => assert SectionOrder[0] == s;
        case CalendarSection => assert SectionOrder[1] == s;
        case SystemSection => assert SectionOrder[2] == s;
        case NewsSection => assert SectionOrder[3] == s;
        case StocksSection => assert SectionOrder[4] == s;
      }
      PartsOfPresent(b, SectionOrder, s);
    }
  }

  function Texts(ps: seq<Part>): (r: seq<string>)
    ensures |r| == |ps|
    ensures forall k :: 0 <= k < |ps| ==> r[k] == ps[k].text
  {
    seq(|ps|, k requires 0 <= k < |ps| => ps[k].text)
  }

  const NoBriefingText := "No briefing data available."

  lemma SomePartWhenContributing(b: Briefing)
    ensures (exists s :: Contributes(b, s)) ==> |Parts(b)| > 0
  {
    if exists s :: Contributes(b, s) {
      var s :| Contributes(b, s);
      assert HasPart(Parts(b), s);
    }
  }

  /** `format_briefing_for_model`: the parts' texts joined by line breaks, or the
      no-data sentence when no section contributes. */
  function FormatBriefing(b: Briefing): (r: string)
    ensures (forall s :: !Contributes(b, s)) ==> r == NoBriefingText
    ensures (exists s :: Contributes(b, s)) ==> |Parts(b)| > 0 && r == Join(Texts(Parts(b)), "\n")
  {
    SomePartWhenContributing(b);
    var ps := Parts(b);
    if ps == [] then NoBriefingText else Join(Texts(ps), "\n")
  }

  // ---------------------------------------------------------------- assembled and rendered

  /** What a rendered briefing holds follows from the flags: weather and system are
      rendered exactly when included, headlines and stocks when included and
      non-empty, and the calendar when included and its fetch and formatting went
      through. */
  lemma BriefingSectionsFollowFlags(flags: Flags, src: Sources)
    ensures var b := GetBriefing(flags, src);
      && (Contributes(b, WeatherSection) <==> flags.weather)
      && (Contributes(b, SystemSection) <==> flags.system)
      && (Contributes(b, NewsSection) <==> flags.news && src.news != [])
      && (Contributes(b, StocksSection) <==> flags.stocks && src.stocks != [])
      && (Contributes(b, CalendarSection) <==> flags.calendar && CalendarSpeech(src.schedule).Some?)
  {
    var speech := SystemOps.FormatStatus(src.status);
    assert |speech| >= |"CPU at "|;
  }

  /** With every section excluded the briefing renders as the no-data sentence. */
  lemma NothingIncludedRendersNoData(src: Sources)
    ensures FormatBriefing(GetBriefing(Flags(false, false, false, false, false), src)) == NoBriefingText
  {
    var b := GetBriefing(Flags(false, false, false, false, false), src);
    assert forall s :: !Contributes(b, s);
  }

  /** With the default flags the briefing holds weather, system and calendar, and
      leaves headlines and stocks out. */
  lemma DefaultBriefingSections(src: Sources)
    ensures var b := GetBriefing(DefaultFlags, src);
      && b.weather == Some(src.weather)
      && b.system == Some(src.status)
      && b.news.None? && b.stocks.None?
      && b.calendarSpeech == CalendarSpeech(src.schedule)
  {
  }

  /** Without calendar credentials the included calendar section is the not-configured
      error, spoken after "Calendar: ". */
  lemma UnconfiguredCalendarSpeech(flags: Flags, src: Sources, listing: Outcome<seq<Productivity.RawItem>>)
    requires flags.calendar && src.schedule == Returned(Productivity.GetTodaySchedule(false, listing))
    ensures GetBriefing(flags, src).calendarSpeech == Some("Calendar: " + Productivity.ScheduleNotConfigured)
  {
    assert Truthy(Some(Productivity.ScheduleNotConfigured));
  }
}
