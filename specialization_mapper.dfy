/**
 * `SpecializationMapper`: builds the specialization-area responses and the
 * favourite-specialization entity. Every mapper answers `null` (here `None`)
 * for a `null` argument.
 */
module SpecializationMapper {
  import opened Common
  import opened Entities

  datatype SpecializationRecommendationResponse = SpecializationRecommendationResponse(
    id: int,
    name: string,
    description: Option<string>,
    compatibilityPercentage: int,
    careerName: string)

  /** `SpecializationDetailResponse`; `D` is whatever the social-media lookup returned. */
  datatype SpecializationDetailResponse<D> = SpecializationDetailResponse(
    id: int,
    name: string,
    description: Option<string>,
    applicationFields: Option<string>,
    jobProjection: Option<string>,
    careerName: string,
    socialMediaData: D)

  datatype FavoriteSpecializationResponse = FavoriteSpecializationResponse(
    id: int,
    specializationAreaId: int,
    specializationName: string,
    notes: Option<string>,
    active: bool)

  /** The response for one (non-null) recommendation row. */
  function RecommendationResponse(row: SpecializationRecommendation): (r: SpecializationRecommendationResponse)
    ensures r.id == row.specializationArea.id && r.name == row.specializationArea.name
    ensures r.description == row.specializationArea.description
    ensures r.careerName == row.specializationArea.career.name
    ensures r.compatibilityPercentage == row.compatibilityPercentage
  {
    var area := row.specializationArea;
    SpecializationRecommendationResponse(area.id, area.name, area.description,
      row.compatibilityPercentage, area.career.name)
  }

  /** `toRecommendationResponse`. */
  function ToRecommendationResponse(entity: Option<SpecializationRecommendation>)
    : (r: Option<SpecializationRecommendationResponse>)
    ensures r.None? <==> entity.None?
    ensures r.Some? ==> r.value == RecommendationResponse(entity.value)
  {
    if entity.None? then None else Some(RecommendationResponse(entity.value))
  }

  /** The responses of a list of rows, in list order. */
  function RecommendationResponses(rows: seq<SpecializationRecommendation>)
    : (r: seq<SpecializationRecommendationResponse>)
    ensures |r| == |rows|
    ensures forall i :: 0 <= i < |rows| ==> r[i] == RecommendationResponse(rows[i])
  {
    seq(|rows|, i requires 0 <= i < |rows| => RecommendationResponse(rows[i]))
  }

  /** `toDetailResponse`: the area's own columns, its career's name and the social-media data. */
  function ToDetailResponse<D>(entity: Option<SpecializationArea>, socialMediaData: D)
    : (r: Option<SpecializationDetailResponse<D>>)
    ensures r.None? <==> entity.None?
    ensures r.Some? ==>
      var a := entity.value;
      r.value.id == a.id && r.value.name == a.name && r.value.description == a.description &&
      r.value.applicationFields == a.applicationFields && r.value.jobProjection == a.jobProjection &&
      r.value.careerName == a.career.name && r.value.socialMediaData == socialMediaData
  {
    match entity
    case None => None
    case Some(a) =>
      Some(SpecializationDetailResponse(a.id, a.name, a.description, a.applicationFields,
        a.jobProjection, a.career.name, socialMediaData))
  }

  /** The response for one (non-null) favourite row. */
  function FavoriteResponse(f: Favorite<SpecializationArea>): (r: FavoriteSpecializationResponse)
    ensures r.id == f.id && r.specializationAreaId == f.target.id
    ensures r.specializationName == f.target.name
    ensures r.notes == f.notes && r.active == f.active
  {
    FavoriteSpecializationResponse(f.id, f.target.id, f.target.name, f.notes, f.active)
  }

  /** `toFavoriteResponse`. */
  function ToFavoriteResponse(entity: Option<Favorite<SpecializationArea>>)
    : (r: Option<FavoriteSpecializationResponse>)
    ensures r.None? <==> entity.None?
    ensures r.Some? ==> r.value == FavoriteResponse(entity.value)
  {
    if entity.None? then None else Some(FavoriteResponse(entity.value))
  }

  /** The favourite row `toFavoriteEntity` builds from present arguments (not saved yet: id 0). */
  function NewFavorite(dto: FavoriteSpecializationRequest, userId: int, area: SpecializationArea)
    : (f: Favorite<SpecializationArea>)
    ensures f.active && f.id == 0
    ensures f.userId == userId && f.target == area && f.notes == dto.notes
  {
    Favorite(0, userId, area, dto.notes, true)
  }

  /** `toFavoriteEntity`: `null` when any argument is `null`. */
  function ToFavoriteEntity(dto: Option<FavoriteSpecializationRequest>, userId: Option<int>,
                            area: Option<SpecializationArea>): (r: Option<Favorite<SpecializationArea>>)
    ensures r.None? <==> dto.None? || userId.None? || area.None?
    ensures r.Some? ==> r.value == NewFavorite(dto.value, userId.value, area.value)
  {
    if dto.None? || userId.None? || area.None? then None
    else Some(NewFavorite(dto.value, userId.value, area.value))
  }

  /**
   * Building a favourite and reporting it gives back the area's id and name
   * and the request's notes, marked active.
   */
  lemma FavoriteRoundTrip(dto: FavoriteSpecializationRequest, userId: int, area: SpecializationArea)
    ensures ToFavoriteResponse(ToFavoriteEntity(Some(dto), Some(userId), Some(area))) ==
      Some(FavoriteSpecializationResponse(0, area.id, area.name, dto.notes, true))
  {
  }
}
