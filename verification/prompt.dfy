/**
 * The text of the system prompt: a base template, then the user's profile block and
 * assessment block when they are non-empty, then (at session creation only) a closing
 * instruction that asks either for the opening line or for a reply, all separated by
 * blank lines.
 */
module Prompt {
  import opened Wrappers
  import opened Text
  import opened Profile
  import opened Survey

  const ProfileHeading: string := "【用户信息】：\n"
  const SurveyHeading: string := "【用户测评数据】：\n"
  const PartSeparator: string := "\n\n"

  /** The source's triple-quoted closing instructions keep their 12-space indentation. */
  const Indent: string := "            "
  const InstructionHead: string :=
    "\n" + Indent + "\n" + Indent + "---\n" + Indent + "\n" + Indent + "### 6. 开始执行\n" + Indent
    + "请严格按照以上所有要求，特别是【本次任务】和【外部输入数据】，"
  /** Asks for the first, opening line. */
  const OpeningInstruction: string := InstructionHead + "生成你的第一句开场白。\n" + Indent
  /** Asks for a reply. */
  const ReplyInstruction: string := InstructionHead + "生成你的回应。\n" + Indent

  /** The external lookups, already answered: `None` when the service call failed or was refused. */
  datatype Services = Services(
    userInfo: string -> Option<UserData>,
    surveyData: string -> Option<seq<SurveyItem>>)

  /** `get_user_info`: the formatted profile, or empty when the lookup failed. */
  function ProfileText(svc: Services, userId: string): string
  {
    match svc.userInfo(userId)
    case Some(d) => ParseUserInfo(d)
    case None => ""
  }

  /** `get_user_survey_data`: the formatted report, or empty when the lookup failed. */
  function SurveyText(svc: Services, userId: string): string
  {
    match svc.surveyData(userId)
    case Some(items) => ParseSurveyData(items)
    case None => ""
  }

  /** The base prompt followed by the non-empty blocks. */
  function EnrichedParts(base: string, profile: string, survey: string): seq<string>
  {
    [base]
    + (if profile != "" then [ProfileHeading + profile] else [])
    + (if survey != "" then [SurveyHeading + survey] else [])
  }

  /** The base prompt at session creation: template "B" when configured, the default prompt otherwise. */
  function InitialBase(templates: map<string, string>, defaultPrompt: string): string
  {
    if "B" in templates then templates["B"] else defaultPrompt
  }

  /** The system prompt built when a session is created. */
  function InitialPrompt(templates: map<string, string>, defaultPrompt: string, profile: string, survey: string,
                         isFirst: bool): string
  {
    var closing := if isFirst then OpeningInstruction else ReplyInstruction;
    Join(EnrichedParts(InitialBase(templates, defaultPrompt), profile, survey) + [closing], PartSeparator)
  }

  /** The system prompt rebuilt from one named template, without a closing instruction. */
  function ConversationPrompt(template: string, profile: string, survey: string): string
  {
    Join(EnrichedParts(template, profile, survey), PartSeparator)
  }

  /** The enrichment written out: each block present exactly when its text is non-empty. */
  function Enrichment(profile: string, survey: string): string
  {
    (if profile != "" then PartSeparator + ProfileHeading + profile else "")
    + (if survey != "" then PartSeparator + SurveyHeading + survey else "")
  }

  lemma JoinTwo(a: string, b: string, sep: string)
    ensures Join([a, b], sep) == a + sep + b
  {
    assert [a, b][1..] == [b];
  }

  lemma JoinThree(a: string, b: string, c: string, sep: string)
    ensures Join([a, b, c], sep) == a + sep + (b + sep + c)
  {
    assert [a, b, c][1..] == [b, c];
    JoinTwo(b, c, sep);
  }

  lemma ConversationPromptLayout(template: string, profile: string, survey: string)
    ensures ConversationPrompt(template, profile, survey) == template + Enrichment(profile, survey)
  {
    var sep := PartSeparator;
    var p, s := ProfileHeading + profile, SurveyHeading + survey;
    AppendAssoc(sep, ProfileHeading, profile);
    AppendAssoc(sep, SurveyHeading, survey);
    if profile != "" && survey != "" {
      assert EnrichedParts(template, profile, survey) == [template, p, s];
      JoinThree(template, p, s, sep);
      AppendAssoc(template, sep, p + sep + s);
      AppendAssoc(sep, p + sep, s);
      AppendAssoc(sep, p, sep);
      AppendAssoc(sep + p, sep, s);
    } else if profile != "" {
      assert EnrichedParts(template, profile, survey) == [template, p];
      JoinTwo(template, p, sep);
      AppendAssoc(template, sep, p);
    } else if survey != "" {
      assert EnrichedParts(template, profile, survey) == [template, s];
      JoinTwo(template, s, sep);
      AppendAssoc(template, sep, s);
    } else {
      assert EnrichedParts(template, profile, survey) == [template];
    }
  }

  /**
   * The session-creation prompt is the base, the non-empty blocks, and the closing
   * instruction, joined by blank lines.
   */
  lemma InitialPromptLayout(templates: map<string, string>, defaultPrompt: string, profile: string, survey: string,
                            isFirst: bool)
    ensures InitialPrompt(templates, defaultPrompt, profile, survey, isFirst) ==
      InitialBase(templates, defaultPrompt) + Enrichment(profile, survey) + PartSeparator
      + (if isFirst then OpeningInstruction else ReplyInstruction)
  {
    var base := InitialBase(templates, defaultPrompt);
    var closing := if isFirst then OpeningInstruction else ReplyInstruction;
    JoinSnoc(EnrichedParts(base, profile, survey), closing, PartSeparator);
    ConversationPromptLayout(base, profile, survey);
  }
}
