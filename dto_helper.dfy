/** The outdated-DTO check and the copying of the common header fields
    (uuid, creation date, change date) between a DTO and a persisted entity.

    Dates are milliseconds since the epoch; a missing (null) value is `None`.
    A fresh uuid and the new-entity supplier are passed in by the caller. */
module DtoHelper {

  datatype Option<T> = None | Some(value: T)

  /** Some inaccuracy between the DTO's and the entity's change date is accepted. */
  const ChangeDateToleranceMs: int := 1000

  /** The header every DTO carries. */
  class EntityDto {
    var uuid: Option<string>
    var creationDate: Option<int>
    var changeDate: Option<int>

    constructor (uuid: Option<string>, creationDate: Option<int>, changeDate: Option<int>)
      ensures this.uuid == uuid && this.creationDate == creationDate && this.changeDate == changeDate
    {
      this.uuid := uuid;
      this.creationDate := creationDate;
      this.changeDate := changeDate;
    }
  }

  /** The header every persisted entity carries. */
  class DomainObject {
    var uuid: Option<string>
    var creationDate: Option<int>
    var changeDate: Option<int>

    constructor (uuid: Option<string>, creationDate: Option<int>, changeDate: Option<int>)
      ensures this.uuid == uuid && this.creationDate == creationDate && this.changeDate == changeDate
    {
      this.uuid := uuid;
      this.creationDate := creationDate;
      this.changeDate := changeDate;
    }
  }

  /** Passing, or the `OutdatedEntityException` raised for the DTO with this uuid. */
  datatype Outcome = Pass | Outdated(uuid: Option<string>)

  /** The rejection rule: with checking on and an entity change date present, a DTO
      is outdated when it has no change date or one more than the tolerance older. */
  predicate IsOutdated(dtoChange: Option<int>, entityChange: Option<int>, checkChangeDate: bool): (b: bool)
    ensures b ==> checkChangeDate && entityChange.Some?
    ensures checkChangeDate && entityChange.Some? && dtoChange.None? ==> b
    ensures checkChangeDate && entityChange.Some? && dtoChange.Some? ==>
      (b <==> entityChange.value - dtoChange.value > ChangeDateToleranceMs)
  {
    checkChangeDate && entityChange.Some? &&
    (dtoChange.None? || dtoChange.value + ChangeDateToleranceMs < entityChange.value)
  }

  /** `validateDto`: raises for an outdated DTO, naming the DTO's uuid. */
  function ValidateDto(dto: EntityDto, entity: DomainObject, checkChangeDate: bool): (o: Outcome)
    reads dto, entity
    ensures o == Pass <==> !IsOutdated(dto.changeDate, entity.changeDate, checkChangeDate)
    ensures o.Outdated? ==> o.uuid == dto.uuid
  {
    if IsOutdated(dto.changeDate, entity.changeDate, checkChangeDate) then Outdated(dto.uuid) else Pass
  }

  /** With checking switched off nothing is rejected. */
  lemma NoCheckNeverRejects(dtoChange: Option<int>, entityChange: Option<int>)
    ensures !IsOutdated(dtoChange, entityChange, false)
  {
  }

  /** An entity without a change date rejects nothing. */
  lemma NoEntityDateNeverRejects(dtoChange: Option<int>, checkChangeDate: bool)
    ensures !IsOutdated(dtoChange, None, checkChangeDate)
  {
  }

  /** A DTO without a change date is rejected against an entity that has one. */
  lemma MissingDtoDateRejected(entityChange: int)
    ensures IsOutdated(None, Some(entityChange), true)
  {
  }

  /** With both dates present, rejection is exactly "more than 1000 ms older":
      1000 ms older passes, 1001 ms older does not. */
  lemma ToleranceBoundary(dtoChange: int, entityChange: int)
    ensures IsOutdated(Some(dtoChange), Some(entityChange), true) <==> dtoChange + 1000 < entityChange
    ensures !IsOutdated(Some(entityChange - 1000), Some(entityChange), true)
    ensures IsOutdated(Some(entityChange - 1001), Some(entityChange), true)
  {
  }

  /** Once a change date is accepted, every later one is accepted too. */
  lemma AcceptanceMonotone(dtoChange: int, later: int, entityChange: Option<int>, checkChangeDate: bool)
    requires dtoChange <= later
    requires !IsOutdated(Some(dtoChange), entityChange, checkChangeDate)
    ensures !IsOutdated(Some(later), entityChange, checkChangeDate)
  {
  }

  /** `fillDto`: copies the entity's creation date, change date and uuid onto the DTO
      and touches nothing else; the DTO then passes the check against that entity. */
  method FillDto(dto: EntityDto, entity: DomainObject)
    modifies dto`creationDate, dto`changeDate, dto`uuid
    ensures dto.creationDate == entity.creationDate
    ensures dto.changeDate == entity.changeDate
    ensures dto.uuid == entity.uuid
    ensures ValidateDto(dto, entity, true) == Pass
  {
    dto.creationDate := entity.creationDate;
    dto.changeDate := entity.changeDate;
    dto.uuid := entity.uuid;
  }

  /** The entity `fillOrBuildEntity` returns, or the exception it raises. */
  datatype EntityResult = Built(entity: DomainObject) | Rejected(uuid: Option<string>)

  /** `fillOrBuildEntity`. Without a target, the supplied new entity gets the source DTO's
      uuid (or the fresh one when the DTO has none) and, when the DTO has one,
      its creation date; an existing target is returned untouched. Either way the
      source is then checked against the resulting entity. */
  method FillOrBuildEntity(source: EntityDto, target: DomainObject?, newEntity: DomainObject,
                           freshUuid: string, checkChangeDate: bool) returns (res: EntityResult)
    modifies newEntity`uuid, newEntity`creationDate
    ensures target == null ==>
      newEntity.uuid == (if source.uuid.Some? then source.uuid else Some(freshUuid)) &&
      newEntity.creationDate == (if source.creationDate.Some? then source.creationDate else old(newEntity.creationDate)) &&
      newEntity.changeDate == old(newEntity.changeDate)
    ensures target != null ==> unchanged(target) && unchanged(newEntity)
    ensures var e := if target == null then newEntity else target;
      (res.Built? <==> !IsOutdated(source.changeDate, e.changeDate, checkChangeDate)) &&
      (res.Built? ==> res.entity == e) &&
      (res.Rejected? ==> res.uuid == source.uuid)
  {
    var e: DomainObject;
    if target == null {
      e := newEntity;
      var uuid := if source.uuid.Some? then source.uuid.value else freshUuid;
      e.uuid := Some(uuid);
      if source.creationDate.Some? {
        e.creationDate := Some(source.creationDate.value);
      }
    } else {
      e := target;
    }
    var outcome := ValidateDto(source, e, checkChangeDate);
    if outcome.Outdated? {
      res := Rejected(outcome.uuid);
    } else {
      res := Built(e);
    }
  }
}
