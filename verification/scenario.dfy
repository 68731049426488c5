/** Clients of both services that walk through a catalog's life: what a caller can conclude
    from the contracts alone. */
module Scenarios {
  import opened Common
  import opened Renters
  import opened Locations
  import opened Storage
  import opened RenterRepositories
  import opened LocationRepositories
  import opened RenterServices
  import opened LocationServices

  method EmailRule()
  {
    var db := new Database();
    var renterRepo := new RenterRepository(db);
    var renters := new RenterService(renterRepo);

    var a := renters.Create(CreateRenter("A", "a@x.com", None, Individual, None));
    assert a == Ok(Renter(1, "A", "a@x.com", None, Individual, None));

    // A second renter with the same email is refused and consumes no id.
    assert EmailHeld(db.renters, "a@x.com") by { assert db.renters[1].email == "a@x.com"; }
    var twin := renters.Create(CreateRenter("B", "a@x.com", None, Company, None));
    assert twin == Conflict(EmailTaken);

    // Re-sending one's own email is not a conflict.
    var same := renters.Update(1, NoRenterChanges.(email := Some("a@x.com")));
    assert same == Ok(Renter(1, "A", "a@x.com", None, Individual, None));
  }

  method RenterWithCar()
  {
    var db := new Database();
    var renterRepo := new RenterRepository(db);
    var locationRepo := new LocationRepository(db);
    var renters := new RenterService(renterRepo);
    var locations := new LocationService(locationRepo);

    var a := renters.Create(CreateRenter("A", "a@x.com", None, Individual, None));
    var car := locations.Create(CreateLocation("Car1", None, 1000, Car, None, 1));
    assert car == Ok(Location(1, "Car1", None, 1000, Car, true, 1));

    // A location whose renter does not exist is rejected by the foreign key.
    var orphan := locations.Create(CreateLocation("House1", None, 5000, House, None, 7));
    assert orphan == StorageFailure(ForeignKeyViolation);

    var owned := locations.FindByRenter(1);
    assert owned == [car.value];

    var boats := locations.FindByType("boat");
    assert boats == InvalidType(InvalidTypeMessage("boat"));
  }

  method DeleteOrder()
  {
    var db := new Database();
    var renterRepo := new RenterRepository(db);
    var locationRepo := new LocationRepository(db);
    var renters := new RenterService(renterRepo);
    var locations := new LocationService(locationRepo);

    var a := renters.Create(CreateRenter("A", "a@x.com", None, Individual, None));
    var car := locations.Create(CreateLocation("Car1", None, 1000, Car, None, 1));

    // The renter still owns the car, so the foreign key refuses its deletion.
    assert 1 in OwnedBy(db.locations, 1);
    var refused := renters.Delete(1);
    assert refused == StorageFailure(ForeignKeyViolation);

    var dropped := locations.Delete(1);
    assert dropped == Ok(true);
    var gone := locations.FindById(1);
    assert gone == NotFound(LocationEntity, 1);

    var removed := renters.Delete(1);
    assert removed == Ok(true);
    var missing := renters.FindById(1);
    assert missing == NotFound(RenterEntity, 1);
  }
}
