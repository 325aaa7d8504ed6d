/** The content of a ruleset: classes, grade scales, award types and the layer editions that carry them. */
module RulesetModel {
  import opened Wrappers
  import opened LocalDates
  import MergeById

  datatype ClassId = ClassId(text: string)
  datatype GradeId = GradeId(text: string)
  datatype GradeScaleId = GradeScaleId(text: string)
  datatype AwardTypeId = AwardTypeId(text: string)
  datatype ShowTypeId = ShowTypeId(text: string)
  datatype LayerId = LayerId(text: string)

  /** A lower ordinal is a better grade. */
  datatype Grade = Grade(id: GradeId, ordinal: int) {
    predicate IsAtLeast(minimum: Grade) { ordinal <= minimum.ordinal }
  }

  datatype GradeScale = GradeScale(id: GradeScaleId, grades: seq<Grade>) {
    function GradeOf(gradeId: GradeId): Option<Grade> { MergeById.Find(grades, (g: Grade) => g.id, gradeId) }
  }

  datatype ClassDefinition = ClassDefinition(
    id: ClassId, fromAgeMonths: Option<nat>, lessThanAgeMonths: Option<nat>,
    requiredCertificates: seq<string>, bredByExhibitor: bool,
    gradeScaleId: GradeScaleId, awardTypeIds: seq<AwardTypeId>)

  datatype Feeder = AwardFeeder(awardTypeId: AwardTypeId) | ClassFeeder(classId: ClassId)

  datatype Level = Breed | Group | Show

  datatype AwardType =
    | PerSex(id: AwardTypeId, minimumGradeId: GradeId, worstEligiblePlacement: Option<nat>, isDiscretionary: bool)
    | HigherScope(id: AwardTypeId, minimumGradeId: GradeId, worstEligiblePlacement: Option<nat>,
                  isDiscretionary: bool, level: Level, fedBy: seq<Feeder>)
    | Collective(id: AwardTypeId, isDiscretionary: bool)

  datatype ShowType = ShowType(id: ShowTypeId, availableAwardTypeIds: seq<AwardTypeId>)

  /** The four collections an edition carries, and a composed snapshot is made of. */
  datatype Content = Content(
    classes: seq<ClassDefinition>, scales: seq<GradeScale>, awards: seq<AwardType>, showTypes: seq<ShowType>)

  datatype Edition = Edition(layerId: LayerId, effectiveFrom: LocalDate, content: Content)

  datatype EditionReference = EditionReference(layerId: LayerId, effectiveFrom: LocalDate)

  function ClassIdOf(c: ClassDefinition): ClassId { c.id }
  function ScaleIdOf(s: GradeScale): GradeScaleId { s.id }
  function AwardIdOf(a: AwardType): AwardTypeId { a.id }
  function ShowTypeIdOf(t: ShowType): ShowTypeId { t.id }
}
