/** The tiers a model can be classed in. */
module Tiers {

  datatype Tier = Fast | Standard | Reasoning | Frontier
}
