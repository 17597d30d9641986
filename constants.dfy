/** User-facing error messages of the search controller (src/constants/index.ts). */
module Constants {

  const INVALID_ZIP: string := "Please enter a valid 5-digit ZIP code (e.g., 12345)"
  const EMPTY_ZIP: string := "ZIP code is required"
  const NO_VEHICLES: string := "No vehicles found for this ZIP code"
}
