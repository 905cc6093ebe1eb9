/** The record shapes the components exchange. They carry no behaviour. */
module Types {

  import opened Wrappers

  /** One car as the catalogue service returns it. */
  datatype CarProps = CarProps(
    cityMpg: int,
    carClass: string,
    combinationMpg: int,
    cylinders: int,
    displacement: real,
    drive: string,
    fuelType: string,
    highwayMpg: int,
    make: string,
    model: string,
    transmission: string,
    year: int)

  /** The page's search parameters; every field may be absent. */
  datatype FilterProps = FilterProps(
    manufacturer: Option<string>,
    year: Option<int>,
    model: Option<string>,
    limit: Option<nat>,
    fuel: Option<string>)

  /** What the page hands to the "Show More" control. */
  datatype ShowMoreProps = ShowMoreProps(pageNumber: real, isNext: bool)
}
