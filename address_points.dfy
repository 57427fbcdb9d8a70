/**
 * The local geocoder over Cook County's address-point table: a lookup by the full
 * abbreviated address, a fuzzy lookup by number, direction, name and type that prefers
 * the exact number and otherwise the nearest one, and an intersection lookup that is
 * not written yet.  The table is read once from a file and never changed; here it is a
 * parameter.  Every failure answers the coordinates (0, 0).
 */
module AddressPoints {
  import opened Regex
  import opened Text

  /** One row of the address-point table, with the columns the lookups read. */
  datatype AddressPoint = AddressPoint(
    cmpAddAbrv: string, addNumber: int, preDir: string, stName: string, stType: string, long: real, lat: real)

  /** (longitude, latitude). */
  type Coordinates = (real, real)

  /** The answer when nothing is found. */
  const Nowhere: Coordinates := (0.0, 0.0)

  function CoordinatesOf(p: AddressPoint): Coordinates {
    (p.long, p.lat)
  }

  // ---------------------------------------------------------------------------------
  // get_street_address_coordinates_from_full_name

  /** The index of the first row from i on whose CMPADDABRV is u, if there is one. */
  function FirstFullName(table: seq<AddressPoint>, u: string, i: nat): (r: Option<nat>)
    requires i <= |table|
    ensures r.Some? ==> i <= r.value < |table| && table[r.value].cmpAddAbrv == u
    ensures r.Some? ==> forall k | i <= k < r.value :: table[k].cmpAddAbrv != u
    ensures r.None? ==> forall k | i <= k < |table| :: table[k].cmpAddAbrv != u
    decreases |table| - i
  {
    if i == |table| then None
    else if table[i].cmpAddAbrv == u then Some(i)
    else FirstFullName(table, u, i + 1)
  }

  /**
   * `get_street_address_coordinates_from_full_name(address)`: the coordinates of the
   * first row whose full abbreviated address is the upper-cased address, else (0, 0).
   */
  function FullNameCoordinates(table: seq<AddressPoint>, address: string): (r: Coordinates)
    ensures (forall k | 0 <= k < |table| :: table[k].cmpAddAbrv != Upper(address)) ==> r == Nowhere
    ensures forall j | 0 <= j < |table| && table[j].cmpAddAbrv == Upper(address) ::
      (forall k | 0 <= k < j :: table[k].cmpAddAbrv != Upper(address)) ==> r == CoordinatesOf(table[j])
  {
    match FirstFullName(table, Upper(address), 0)
    case None => Nowhere
    case Some(j) => CoordinatesOf(table[j])
  }

  // ---------------------------------------------------------------------------------
  // get_street_address_coordinates

  /** A row within fuzziness of the number, on the requested direction, name and type (compared upper-cased). */
  predicate IsCandidate(p: AddressPoint, n: int, direction: string, name: string, streetType: string, fuzziness: int) {
    n - fuzziness <= p.addNumber <= n + fuzziness
    && p.preDir == Upper(direction) && p.stName == Upper(name) && p.stType == Upper(streetType)
  }

  function Distance(p: AddressPoint, n: int): nat {
    if p.addNumber >= n then p.addNumber - n else n - p.addNumber
  }

  /**
   * `get_street_address_coordinates(n, direction, name, type, fuzziness)`.  Among the
   * candidate rows, the first one with exactly number n wins; otherwise the first one
   * with the least distance to n (the first label `idxmin` finds); with no candidate
   * `idxmin` raises and the answer is (0, 0).  The rows of the table are labelled
   * uniquely, so the label found names exactly one row.
   */
  method StreetAddressCoordinates(table: seq<AddressPoint>, n: int, direction: string, name: string,
                                  streetType: string, fuzziness: int) returns (r: Coordinates)
    ensures (forall k | 0 <= k < |table| :: !IsCandidate(table[k], n, direction, name, streetType, fuzziness)) ==> r == Nowhere
    ensures forall j | 0 <= j < |table| && IsCandidate(table[j], n, direction, name, streetType, fuzziness) && table[j].addNumber == n ::
      (forall k | 0 <= k < j :: !(IsCandidate(table[k], n, direction, name, streetType, fuzziness) && table[k].addNumber == n)) ==>
      r == CoordinatesOf(table[j])
    ensures ((exists k | 0 <= k < |table| :: IsCandidate(table[k], n, direction, name, streetType, fuzziness)) &&
             (forall k | 0 <= k < |table| :: IsCandidate(table[k], n, direction, name, streetType, fuzziness) ==> table[k].addNumber != n)) ==>
      exists j | 0 <= j < |table| :: IsCandidate(table[j], n, direction, name, streetType, fuzziness) && r == CoordinatesOf(table[j])
        && (forall k | 0 <= k < |table| && IsCandidate(table[k], n, direction, name, streetType, fuzziness) :: Distance(table[j], n) <= Distance(table[k], n))
        && (forall k | 0 <= k < j && IsCandidate(table[k], n, direction, name, streetType, fuzziness) :: Distance(table[j], n) < Distance(table[k], n))
  {
    var exact := -1;
    var closest := -1;
    for i := 0 to |table|
      invariant -1 <= exact < i && -1 <= closest < i
      invariant exact == -1 ==> forall k | 0 <= k < i :: !(IsCandidate(table[k], n, direction, name, streetType, fuzziness) && table[k].addNumber == n)
      invariant exact >= 0 ==> IsCandidate(table[exact], n, direction, name, streetType, fuzziness) && table[exact].addNumber == n
      invariant exact >= 0 ==> forall k | 0 <= k < exact :: !(IsCandidate(table[k], n, direction, name, streetType, fuzziness) && table[k].addNumber == n)
      invariant closest == -1 ==> forall k | 0 <= k < i :: !IsCandidate(table[k], n, direction, name, streetType, fuzziness)
      invariant closest >= 0 ==> IsCandidate(table[closest], n, direction, name, streetType, fuzziness)
      invariant closest >= 0 ==> forall k | 0 <= k < i && IsCandidate(table[k], n, direction, name, streetType, fuzziness) ::
        Distance(table[closest], n) <= Distance(table[k], n)
      invariant closest >= 0 ==> forall k | 0 <= k < closest && IsCandidate(table[k], n, direction, name, streetType, fuzziness) ::
        Distance(table[closest], n) < Distance(table[k], n)
    {
      var p := table[i];
      if IsCandidate(p, n, direction, name, streetType, fuzziness) {
        if p.addNumber == n && exact == -1 {
          exact := i;
        }
        if closest == -1 || Distance(p, n) < Distance(table[closest], n) {
          closest := i;
        }
      }
    }
    if exact >= 0 {
      r := CoordinatesOf(table[exact]);
    } else if closest >= 0 {
      r := CoordinatesOf(table[closest]);
    } else {
      r := Nowhere;
    }
  }

  // ---------------------------------------------------------------------------------
  // get_intersection_coordinates

  /** `get_intersection_coordinates(street1, street2)`: not written yet, so always (0, 0). */
  function IntersectionCoordinates(street1: string, street2: string): (r: Coordinates)
    ensures r == Nowhere
  {
    (0.0, 0.0)
  }
}
