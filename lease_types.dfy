/** The lease record the dashboard displays and the point type of its rent
    projection. */
module LeaseTypes {

  datatype Tenant = Tenant(name: string, guarantor: string, creditRating: string, marketCap: string)

  /** One leased component. The dashboard's field `type` is called `kind` here. */
  datatype Component = Component(kind: string, sf: real, rent: real, rentPSF: real)

  /** The declared property shape; it has no `address` field. */
  datatype Property = Property(name: string, location: string, size: string, components: seq<Component>)

  datatype Dates = Dates(leaseCommencementDate: string, leaseExpirationDate: string, remainingTerm: string)

  datatype Financials = Financials(
    annualRent: real,
    weightedAverageRentPSF: real,
    annualEscalations: string,
    markToMarket: string)

  datatype LeaseOptions = LeaseOptions(renewalOptions: string, otherOptions: string)

  /** The dashboard's field `CAM` is called `cam` here. */
  datatype RecoveryStructure = RecoveryStructure(realEstateTaxes: string, cam: string, insurance: string, managementFee: string)

  datatype LeaseData = LeaseData(
    tenant: Tenant,
    property: Property,
    dates: Dates,
    financials: Financials,
    options: LeaseOptions,
    recoveryStructure: RecoveryStructure)

  /** One year of the rent projection: contract rent per square foot of the
      two components and the market comparison series. */
  datatype RentPoint = RentPoint(
    year: int,
    warehouseRent: real,
    parkingRent: real,
    marketRentWarehouse: real,
    marketRentParking: real)

  /** The one lease the dashboard ships with. */
  const AmazonLease := LeaseData(
    Tenant("Amazon.com Services LLC", "Amazon.com, Inc.", "AA (S&P)", "$1.95 TN"),
    Property("280 Richards", "Brooklyn, New York City", "312,000 SF", [
      Component("Ground Floor (Warehouse / Mezz.)", 151000.0, 5575556.0, 36.92),
      Component("Rooftop Parking", 161000.0, 2038217.0, 12.66)
    ]),
    Dates("May 2022", "Sep 2037", "13 years"),
    Financials(7613773.0, 24.40, "3%", "30%+"),
    LeaseOptions("Four 5-year renewal options at 100% FMV", "One-Time ROFO (Right of First Offer)"),
    RecoveryStructure("100% Recovery", "100% Recovery", "Incurred by Ownership", "Incurred by Ownership"))
}
