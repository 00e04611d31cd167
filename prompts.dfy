/**
 * The prompt builder: the storyboard's story type picks a weather scene
 * template for the subject and place, and a fixed style line follows it.
 */
module Prompts {
  import opened Wrappers
  import Weather

  const SafeZoneNote: string := "bottom 20% of frame relatively static for lockscreen UI"

  const StyleLead: string :=
    "Cinematic but subtle; loopable 7–8s clip; minimal camera motion; "
    + "no text overlay; no cut; natural weather transition; "

  /** The style line that closes every prompt. */
  const Style: string := StyleLead + SafeZoneNote + "."

  const ProlongedRainScene: string :=
    "under continuous rain that lasts all day. "
    + "The scene is covered with thick gray clouds, wet reflections on the ground, "
    + "raindrops falling steadily, creating a calm and melancholic atmosphere. "
    + "gentle motion."

  const IntermittentShowersScene: string :=
    "experiencing changing weather, alternating between brief showers and sunshine. "
    + "Clouds move quickly across the sky, puddles form and dry, light flickers between bright and dim. "
    + "dynamic lighting, expressive sky."

  const PassingShowerScene: string :=
    "after a short passing shower. "
    + "The rain stops and sunlight breaks through the clouds, creating a rainbow in the distance. "
    + "Wet surfaces shimmer, the air feels fresh and hopeful. "
    + "soft sunlight, bright mood, post-rain glow."

  const ShowersScene: string :=
    "caught in a sudden heavy shower. "
    + "Strong raindrops splash on the ground, dark clouds move fast, wind and thunder in the distance. "
    + "Dramatic and moody atmosphere, energetic movement."

  /** What the four known story types add after "{subject} standing {place}, ". */
  function KnownScene(storyType: string): Option<string> {
    if storyType == "Prolonged rain" then Some(ProlongedRainScene)
    else if storyType == "Intermittent showers" then Some(IntermittentShowersScene)
    else if storyType == "Passing shower then clearing" then Some(PassingShowerScene)
    else if storyType == "Showers" then Some(ShowersScene)
    else None
  }

  /** The weather action: the story type's template, or the calm default for any other value. */
  function WeatherAction(subject: string, place: string, storyType: string): (action: string)
    ensures StartsWith(action, subject)
    ensures KnownScene(storyType).Some? ==> EndsWith(action, ", " + KnownScene(storyType).value)
    ensures KnownScene(storyType).Some? ==>
              var lead := subject + " standing " + place + ", ";
              StartsWith(action, lead) && |action| == |lead| + |KnownScene(storyType).value|
  {
    var scene := KnownScene(storyType);
    if scene.Some? then
      Framed(subject, " standing ", place, ", ", scene.value);
      subject + " standing " + place + ", " + scene.value
    else
      Opens(subject, " in ", place, ", calm ambient loop.");
      subject + " in " + place + ", calm ambient loop."
  }

  /** A text built as `subject + joint + place + rest` opens with the subject. */
  lemma Opens(subject: string, joint: string, place: string, rest: string)
    ensures StartsWith(subject + joint + place + rest, subject)
  {
    var s := subject + joint + place + rest;
    assert s[..|subject|] == subject;
  }

  /**
   * A text built as `subject + joint + place + sep + scene` opens with the
   * subject and with `subject + joint + place + sep`, and closes with `sep + scene`.
   */
  lemma Framed(subject: string, joint: string, place: string, sep: string, scene: string)
    ensures StartsWith(subject + joint + place + sep + scene, subject)
    ensures StartsWith(subject + joint + place + sep + scene, subject + joint + place + sep)
    ensures EndsWith(subject + joint + place + sep + scene, sep + scene)
  {
    Opens(subject, joint, place, sep + scene);
    var s := subject + joint + place + sep + scene;
    assert s[..|subject + joint + place + sep|] == subject + joint + place + sep;
    assert s == (subject + joint + place) + (sep + scene);
    assert s[|s| - |sep + scene|..] == sep + scene;
  }

  /** Indexing a dict by a missing key. */
  datatype KeyError = KeyError(key: string)

  /**
   * build_prompt: the weather action, a blank, and the style line; a
   * storyboard without "story_type" raises KeyError.
   */
  function BuildPrompt(subject: string, place: string, storyboard: map<string, string>): (r: Result<string, KeyError>)
    ensures r.Err? <==> "story_type" !in storyboard
    ensures r.Err? ==> r.error == KeyError("story_type")
    ensures r.Ok? ==>
              var action := WeatherAction(subject, place, storyboard["story_type"]);
              && |r.value| == |action| + 1 + |Style|
              && r.value[..|action|] == action
              && r.value[|action|] == ' '
              && r.value[|action| + 1..] == Style
  {
    if "story_type" !in storyboard then Err(KeyError("story_type"))
    else
      var weatherAction := WeatherAction(subject, place, storyboard["story_type"]);
      Ok(weatherAction + " " + Style)
  }

  predicate StartsWith(s: string, prefix: string) {
    |prefix| <= |s| && s[..|prefix|] == prefix
  }

  predicate EndsWith(s: string, suffix: string) {
    |suffix| <= |s| && s[|s| - |suffix|..] == suffix
  }

  /** Whatever precedes it, a text built as `pre + (lead + tail)` ends with `tail`. */
  lemma EndsWithTail(pre: string, lead: string, tail: string)
    ensures EndsWith(pre + (lead + tail), tail)
  {
    var s := pre + (lead + tail);
    assert s[|s| - |tail|..] == tail;
  }

  /** Every prompt ends with the safe-zone note and a full stop. */
  lemma PromptEndsWithSafeZone(subject: string, place: string, storyboard: map<string, string>)
    requires "story_type" in storyboard
    ensures EndsWith(BuildPrompt(subject, place, storyboard).value, SafeZoneNote + ".")
  {
    var action := WeatherAction(subject, place, storyboard["story_type"]);
    var tail := SafeZoneNote + ".";
    calc {
      BuildPrompt(subject, place, storyboard).value;
      action + " " + Style;
      (action + " ") + (StyleLead + tail);
    }
    EndsWithTail(action + " ", StyleLead, tail);
  }

  /** A known story type's prompt begins with "{subject} standing {place}, ". */
  lemma KnownTypeStandsAtPlace(subject: string, place: string, storyboard: map<string, string>)
    requires "story_type" in storyboard && KnownScene(storyboard["story_type"]).Some?
    ensures StartsWith(BuildPrompt(subject, place, storyboard).value, subject + " standing " + place + ", ")
  {
    var lead := subject + " standing " + place + ", ";
    var action := WeatherAction(subject, place, storyboard["story_type"]);
    assert action == lead + KnownScene(storyboard["story_type"]).value;
    assert action[..|lead|] == lead;
  }

  /** Any other story type, including the weather module's "Dry day", takes the calm default. */
  lemma OtherTypesTakeDefault(subject: string, place: string, storyboard: map<string, string>)
    requires "story_type" in storyboard
    requires storyboard["story_type"] !in {"Prolonged rain", "Intermittent showers", "Passing shower then clearing", "Showers"}
    ensures StartsWith(BuildPrompt(subject, place, storyboard).value, subject + " in " + place + ", calm ambient loop. ")
  {
    var action := subject + " in " + place + ", calm ambient loop.";
    var p := BuildPrompt(subject, place, storyboard).value;
    assert p == action + " " + Style;
    assert p[..|action| + 1] == action + " ";
  }

  /** Exactly the four known story types have their own template. */
  lemma KnownTypes(storyType: string)
    ensures KnownScene(storyType).Some? <==>
              || storyType == "Prolonged rain"
              || storyType == "Intermittent showers"
              || storyType == "Passing shower then clearing"
              || storyType == "Showers"
  {
  }

  /** The storyboard of a day without rain yields the calm default prompt. */
  lemma DryDayPrompt(subject: string, place: string, sb: Weather.Storyboard)
    requires sb.storyType == Weather.DryDay
    ensures BuildPrompt(subject, place, Weather.TextFields(sb))
            == Ok(subject + " in " + place + ", calm ambient loop." + " " + Style)
  {
    assert Weather.TextFields(sb)["story_type"] == "Dry day";
  }
}
