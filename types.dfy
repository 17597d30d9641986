/** The record types shared by the inventory and the search controller
    (src/types/vehicle.ts), and the option type that stands for `T | null`. */
module VehicleTypes {

  datatype Option<T> = None | Some(value: T)

  /** An immutable inventory record. `year`, `mileage` and `price` are JavaScript
      numbers; every one in the inventory is an integer, so they are `int` here. */
  datatype Vehicle = Vehicle(
    id: string,
    make: string,
    model: string,
    trim: string,
    year: int,
    color: string,
    mileage: int,
    price: int,
    image: string)

  /** The filter record the search hook keeps. The declared interface lists only
      `make` and `color`, but the hook stores and reads four keys, so all four are
      here. Each is a single string; "" means "no constraint". */
  datatype VehicleFilters = VehicleFilters(
    make: string,
    color: string,
    bodyType: string,
    priceRange: string)

  /** `Partial<VehicleFilters>`: the keys a caller supplies to `updateFilters`. */
  datatype FilterUpdate = FilterUpdate(
    make: Option<string>,
    color: Option<string>,
    bodyType: Option<string>,
    priceRange: Option<string>)

  /** The union type "price-high" | "price-low" | "year". */
  datatype SortOption = PriceHigh | PriceLow | Year
}
