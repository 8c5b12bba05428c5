/** `ShipmentsParametersModel`: the query parameters of the shipment list endpoint. */
module ShipmentsParameters {
  import Configurations

  class ShipmentsParametersModel {
    var limit: int
    var page: int
    var sinceId: int
    var fields: string

    /** A model the request did not fill: default limit and page, no cursor, no field selection. */
    constructor ()
      ensures limit == Configurations.DefaultLimit
      ensures page == Configurations.DefaultPageValue
      ensures sinceId == 0
      ensures fields == ""
    {
      limit := Configurations.DefaultLimit;
      page := Configurations.DefaultPageValue;
      sinceId := 0;
      fields := "";
    }
  }
}
