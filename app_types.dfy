/**
 * The record shapes the front end exchanges with the back end and keeps in its
 * state: pain cards, the assessment that carries them, and the survey answers.
 */
module AppTypes {
  import opened Wrappers

  /** One pain point, with the tiles and phrases the keyword engine found for it. */
  datatype PainCardData = PainCardData(
    title: string,
    blurb: string,
    triggeredTiles: seq<string>,
    triggeringKeywords: seq<string>)

  /** The assessment the back end returns; the optional fields may be absent. */
  datatype AssessmentData = AssessmentData(
    painCards: seq<PainCardData>,
    scopeSummary: string,
    activatedTiles: seq<string>,
    industry: Option<string>,
    revenue: Option<real>,
    classifiedIndustry: Option<string>,
    geoScope: Option<string>,
    companyName: Option<string>)

  /** The three survey answers of the wizard. */
  datatype UserAnswers = UserAnswers(geoScope: string, isSap: string, isOnPrem: string)

  /** The names of the survey answers, as `keyof UserAnswers`. */
  datatype AnswerKey = GeoScope | IsSap | IsOnPrem
}
