/**
 * Video-controller catalogue: pixel capacity and Ethernet output ports of the
 * three supported controllers.
 */
module ControllerDb {
  import opened Types

  datatype ControllerSpec = ControllerSpec(
    displayName: string,
    maxPixels: int,
    maxResolutionW: int,
    maxResolutionH: int,
    ethernetPorts: int,
    pixelsPerPort: int,
    powerW: int
  )

  /** The catalogue: total over the closed set of controller models. */
  function GetControllerSpec(model: ControllerModel): (spec: ControllerSpec)
    ensures spec.pixelsPerPort == 650000
    ensures spec.ethernetPorts > 0 && spec.maxPixels > 0
    ensures model == VX1000 ==> spec.maxPixels == 6500000 && spec.ethernetPorts == 10
    ensures model == MCTR4K ==> spec.maxPixels == 8847360 && spec.ethernetPorts == 16
    ensures model == H2 ==> spec.maxPixels == 26000000 && spec.ethernetPorts == 40
  {
    match model
    case VX1000 => ControllerSpec("NovaStar VX1000", 6500000, 10240, 8192, 10, 650000, 150)
    case MCTR4K => ControllerSpec("NovaStar MCTRL4K", 8847360, 7680, 7680, 16, 650000, 180)
    case H2 => ControllerSpec("NovaStar H2", 26000000, 10752, 10752, 40, 650000, 210)
  }

  /** Every controller's ports together carry at least its pixel capacity. */
  lemma PortsCoverCapacity(model: ControllerModel)
    ensures var s := GetControllerSpec(model);
      s.ethernetPorts * s.pixelsPerPort >= s.maxPixels
    ensures var s := GetControllerSpec(model);
      model != MCTR4K <==> s.ethernetPorts * s.pixelsPerPort == s.maxPixels
  {
  }

  /** Capacity and port count both grow strictly from VX1000 to MCTRL4K to H2. */
  lemma CatalogueOrdered()
    ensures GetControllerSpec(VX1000).maxPixels < GetControllerSpec(MCTR4K).maxPixels
            < GetControllerSpec(H2).maxPixels
    ensures GetControllerSpec(VX1000).ethernetPorts < GetControllerSpec(MCTR4K).ethernetPorts
            < GetControllerSpec(H2).ethernetPorts
  {
  }
}
